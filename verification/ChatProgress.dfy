/** What can happen in the chat server: from every reachable state there are runs in
    which clients join and leave, messages are accepted, and peers get to see them. */
module ChatProgress {
  import opened Text
  import opened Chat
  import opened ChatInvariant
  import opened ChatTheorems

  // ------------------------------------------------------------ putting runs together

  lemma {:induction false} RunThen(s: State, a: seq<Step>, b: seq<Step>)
    requires CanRun(s, a) && CanRun(After(s, a), b)
    ensures CanRun(s, a + b) && After(s, a + b) == After(After(s, a), b)
    decreases |a|
  {
    if a == [] {
      assert a + b == b;
    } else {
      assert (a + b)[1..] == a[1..] + b;
      RunThen(Apply(s, a[0]), a[1..], b);
    }
  }

  lemma RunOne(s: State, step: Step)
    requires Enabled(s, step)
    ensures CanRun(s, [step]) && After(s, [step]) == Apply(s, step)
  {
    assert [step][1..] == [];
  }

  /** One step and then a run. */
  lemma StepThen(s: State, step: Step, rest: seq<Step>)
    requires Enabled(s, step) && CanRun(Apply(s, step), rest)
    ensures CanRun(s, [step] + rest) && After(s, [step] + rest) == After(Apply(s, step), rest)
  {
    RunOne(s, step);
    RunThen(s, [step], rest);
  }

  lemma {:induction false} ReachableRun(s: State, steps: seq<Step>)
    requires Reachable(s) && CanRun(s, steps)
    ensures Reachable(After(s, steps))
    decreases |steps|
  {
    if steps != [] {
      ReachableStep(s, steps[0]);
      ReachableRun(Apply(s, steps[0]), steps[1..]);
    }
  }

  lemma {:induction false} Enumeration(todo: set<ClientId>) returns (order: seq<ClientId>)
    ensures Enumerates(order, todo)
    decreases todo
  {
    if todo == {} {
      order := [];
    } else {
      var id :| id in todo;
      var rest := Enumeration(todo - {id});
      order := [id] + rest;
      assert forall x :: x in todo ==> x == id || x in todo - {id};
    }
  }

  // ------------------------------------------------------------------ ending a round

  /** The hub has not touched the client's goroutines or its connection. */
  predicate SamePumps(c: Conn, d: Conn) {
    d.stage == c.stage && d.reader == c.reader && d.writer == c.writer && d.connOpen == c.connOpen && d.wire == c.wire
  }

  /** The state after the rest of a round that nothing interrupts. */
  function RoundOver(s: State): State
    requires s.hub.Round? && s.hub.todo <= s.conns.Keys && s.log != []
  {
    RoundResult(s).(hub := Idle)
  }

  lemma RoundStands(s: State)
    requires Reachable(s) && s.hub.Round?
    ensures s.hub.todo <= s.clients && s.clients <= s.conns.Keys && s.log != [] && !s.panicked
  {
    ReachableInv(s);
  }

  lemma RoundRuns(s: State, order: seq<ClientId>)
    requires Reachable(s) && s.hub.Round? && Enumerates(order, s.hub.todo)
    ensures s.hub.todo <= s.conns.Keys && s.log != []
    ensures CanRun(s, Offers(order)) && After(s, Offers(order)) == RoundResult(s)
  {
    RoundStands(s);
    ReachableInv(s);
    RoundOrderIrrelevant(s, order);
  }

  lemma EndRoundRuns(s: State) returns (steps: seq<Step>)
    requires Reachable(s) && s.hub.Round?
    ensures s.hub.todo <= s.conns.Keys && s.log != []
    ensures CanRun(s, steps) && After(s, steps) == RoundOver(s)
  {
    RoundStands(s);
    var order := Enumeration(s.hub.todo);
    RoundRuns(s, order);
    RunOne(RoundResult(s), EndRound);
    RunThen(s, Offers(order), [EndRound]);
    steps := Offers(order) + [EndRound];
  }

  /** What the rest of a round does to one client. */
  lemma RoundOverAt(s: State, id: ClientId)
    requires s.hub.Round? && s.hub.todo <= s.conns.Keys && s.log != [] && id in s.conns
    ensures var t := RoundOver(s);
            && t.log == s.log && id in t.conns && SamePumps(s.conns[id], t.conns[id])
            && (id in t.clients ==> id in s.clients)
            && (id !in s.hub.todo ==> t.conns[id] == s.conns[id] && (id in t.clients <==> id in s.clients))
            && (id in s.hub.todo && |s.conns[id].send.buf| < BUF_SIZE ==>
                  t.conns[id] == Enqueue(s.conns[id], s.hub.message) && (id in t.clients <==> id in s.clients))
  {
  }

  /** From every reachable state the hub can get back to its select, whatever round it is
      in, without the pumps of any client moving. */
  lemma HubGetsIdle(s: State) returns (steps: seq<Step>)
    requires Reachable(s)
    ensures CanRun(s, steps)
    ensures var t := After(s, steps);
            && t.hub.Idle? && t.log == s.log && t.conns.Keys == s.conns.Keys && t.clients <= s.clients
            && forall id :: id in s.conns ==> SamePumps(s.conns[id], t.conns[id])
    ensures forall id :: id in s.conns && !Pending(s, id) ==> After(s, steps).conns[id] == s.conns[id]
    ensures forall id :: id in s.clients && id in s.conns && |s.conns[id].send.buf| < BUF_SIZE ==>
              id in After(s, steps).clients && |After(s, steps).conns[id].send.buf| <= |s.conns[id].send.buf| + 1
  {
    if s.hub.Idle? {
      steps := [];
    } else {
      steps := EndRoundRuns(s);
      forall id | id in s.conns
        ensures SamePumps(s.conns[id], RoundOver(s).conns[id])
        ensures !Pending(s, id) ==> RoundOver(s).conns[id] == s.conns[id]
        ensures id in s.clients && |s.conns[id].send.buf| < BUF_SIZE ==>
                  id in RoundOver(s).clients && |RoundOver(s).conns[id].send.buf| <= |s.conns[id].send.buf| + 1
      {
        RoundOverAt(s, id);
      }
    }
  }

  // ------------------------------------------------------------- accepting a message

  lemma PublishEnabled(s: State, id: ClientId)
    requires Reachable(s) && s.hub.Idle? && id in s.conns
    ensures !s.panicked
    ensures s.conns[id].reader.Publishing? ==> Enabled(s, Publish(id))
    ensures s.conns[id].stage.Registering? ==> Enabled(s, Register(id))
    ensures s.conns[id].reader.Leaving? ==> Enabled(s, Leave(id))
  {
    ReachableInv(s);
  }

  /** An idle hub takes the message a reader offers, and gets through the round: every
      member with room has it at the end of its channel. */
  lemma IdleHubAccepts(s: State, id: ClientId) returns (steps: seq<Step>)
    requires Reachable(s) && s.hub.Idle? && id in s.conns && s.conns[id].reader.Publishing?
    ensures CanRun(s, steps)
    ensures var t, m := After(s, steps), s.conns[id].reader.message;
            && t.hub.Idle? && t.log == s.log + [m] && id in t.conns && t.conns[id].reader.Reading?
            && forall x :: x in s.clients && x in s.conns && |s.conns[x].send.buf| < BUF_SIZE ==>
                 && x in t.clients && x in t.conns && t.conns[x].send.buf == s.conns[x].send.buf + [m]
                 && t.conns[x].writer == s.conns[x].writer && t.conns[x].connOpen == s.conns[x].connOpen
  {
    PublishEnabled(s, id);
    var begun := Apply(s, Publish(id));
    ReachableStep(s, Publish(id));
    var rest := EndRoundRuns(begun);
    StepThen(s, Publish(id), rest);
    steps := [Publish(id)] + rest;
    RoundOverAt(begun, id);
    forall x | x in s.clients && x in s.conns && |s.conns[x].send.buf| < BUF_SIZE
      ensures var t := RoundOver(begun);
              && x in t.clients && x in t.conns
              && t.conns[x].send.buf == s.conns[x].send.buf + [s.conns[id].reader.message]
              && t.conns[x].writer == s.conns[x].writer && t.conns[x].connOpen == s.conns[x].connOpen
    {
      RoundOverAt(begun, x);
    }
  }

  /** In every reachable state a message a reader holds can be accepted: some run ends
      with the hub idle and exactly that message added to the broadcast sequence. */
  lemma MessageAccepted(s: State, id: ClientId) returns (steps: seq<Step>)
    requires Reachable(s) && id in s.conns && s.conns[id].reader.Publishing?
    ensures CanRun(s, steps)
    ensures var t := After(s, steps);
            t.hub.Idle? && t.log == s.log + [s.conns[id].reader.message] && id in t.conns && t.conns[id].reader.Reading?
  {
    var wait := HubGetsIdle(s);
    var idle := After(s, wait);
    assert SamePumps(s.conns[id], idle.conns[id]);
    ReachableRun(s, wait);
    var accept := IdleHubAccepts(idle, id);
    RunThen(s, wait, accept);
    steps := wait + accept;
  }

  /** A serving reader with an open connection takes a message of up to 512 bytes, no
      more, and what it takes can be broadcast, cleaned. */
  lemma ReadBroadcast(s: State, id: ClientId, raw: Bytes) returns (steps: seq<Step>)
    requires Reachable(s) && id in s.conns && s.conns[id].reader.Reading? && s.conns[id].connOpen
    ensures Enabled(s, Read(id, raw)) <==> |raw| <= 512
    ensures |raw| <= 512 ==> CanRun(s, steps) && After(s, steps).hub.Idle? && After(s, steps).log == s.log + [Clean(raw)]
  {
    NotPanicked(s);
    steps := [];
    if |raw| <= 512 {
      var read := Apply(s, Read(id, raw));
      ReachableStep(s, Read(id, raw));
      var rest := MessageAccepted(read, id);
      StepThen(s, Read(id, raw), rest);
      steps := [Read(id, raw)] + rest;
    }
  }

  lemma NotPanicked(s: State)
    requires Reachable(s)
    ensures !s.panicked
  {
    ReachableInv(s);
  }

  // -------------------------------------------------------------- joining and leaving

  /** A client that wants to register gets into the hub's set. */
  lemma Registered(s: State, id: ClientId) returns (steps: seq<Step>)
    requires Reachable(s) && id in s.conns && s.conns[id].stage.Registering?
    ensures CanRun(s, steps)
    ensures var t := After(s, steps);
            && t.hub.Idle? && t.log == s.log && id in t.clients && id in t.conns
            && t.conns[id].stage.SpawningWriter? && t.conns[id].life == Member(|s.log|)
            && t.conns[id].connOpen == s.conns[id].connOpen
  {
    var wait := HubGetsIdle(s);
    var idle := After(s, wait);
    assert SamePumps(s.conns[id], idle.conns[id]);
    ReachableRun(s, wait);
    PublishEnabled(idle, id);
    RunOne(idle, Register(id));
    RunThen(s, wait, [Register(id)]);
    steps := wait + [Register(id)];
  }

  /** Whoever connects can become a member with both pumps at work. */
  lemma Joins(s: State, id: ClientId) returns (steps: seq<Step>)
    requires Reachable(s) && id !in s.conns
    ensures CanRun(s, steps)
    ensures var t := After(s, steps);
            && t.hub.Idle? && t.log == s.log && id in t.clients && id in t.conns && t.conns[id].connOpen
            && t.conns[id].reader.Reading? && t.conns[id].writer.Waiting? && t.conns[id].life == Member(|s.log|)
  {
    NotPanicked(s);
    var upgraded := Apply(s, Upgrade(id));
    ReachableStep(s, Upgrade(id));
    var register := Registered(upgraded, id);
    var member := After(upgraded, register);
    ReachableRun(upgraded, register);
    var spawn := Spawns(member, id);
    RunThen(upgraded, register, spawn);
    StepThen(s, Upgrade(id), register + spawn);
    steps := [Upgrade(id)] + (register + spawn);
  }

  lemma Spawns(s: State, id: ClientId) returns (steps: seq<Step>)
    requires Reachable(s) && id in s.conns && s.conns[id].stage.SpawningWriter?
    ensures CanRun(s, steps)
    ensures After(s, steps) == Put(s, id, s.conns[id].(writer := Waiting, reader := Reading, stage := Served))
  {
    NotPanicked(s);
    var t := Apply(s, SpawnWriter(id));
    RunOne(t, SpawnReader(id));
    StepThen(s, SpawnWriter(id), [SpawnReader(id)]);
    steps := [SpawnWriter(id)] + [SpawnReader(id)];
    assert After(s, steps).conns == Put(s, id, s.conns[id].(writer := Waiting, reader := Reading, stage := Served)).conns;
  }

  /** A reader that leaves gets its client out of the hub's set, the channel closed, and
      then closes the connection. */
  lemma Leaves(s: State, id: ClientId) returns (steps: seq<Step>)
    requires Reachable(s) && id in s.conns && s.conns[id].reader.Leaving?
    ensures CanRun(s, steps)
    ensures var t := After(s, steps);
            && t.hub.Idle? && t.log == s.log && id !in t.clients && id in t.conns
            && t.conns[id].send.closed && t.conns[id].reader.ReaderEnded? && !t.conns[id].connOpen
  {
    var wait := HubGetsIdle(s);
    var idle := After(s, wait);
    assert SamePumps(s.conns[id], idle.conns[id]);
    ReachableRun(s, wait);
    PublishEnabled(idle, id);
    ReachableStep(idle, Leave(id));
    var left := Apply(idle, Leave(id));
    LeftFacts(idle, id);
    RunOne(left, HangUp(id));
    StepThen(idle, Leave(id), [HangUp(id)]);
    RunThen(s, wait, [Leave(id)] + [HangUp(id)]);
    steps := wait + ([Leave(id)] + [HangUp(id)]);
  }

  lemma LeftFacts(s: State, id: ClientId)
    requires Reachable(s) && Enabled(s, Leave(id))
    ensures var t := Apply(s, Leave(id));
            && !t.panicked && t.hub == s.hub && t.log == s.log && id !in t.clients
            && id in t.conns && t.conns[id].send.closed && t.conns[id].reader.HangingUp?
  {
    ReachableStep(s, Leave(id));
    var t := Apply(s, Leave(id));
    ReachableInv(t);
    assert ConnInv(t.conns[id], id in t.clients, Pending(t, id), t.log);
  }

  /** A read error is possible whenever the reader reads, and then the client is gone. */
  lemma ReadErrorLeaves(s: State, id: ClientId) returns (steps: seq<Step>)
    requires Reachable(s) && id in s.conns && s.conns[id].reader.Reading?
    ensures CanRun(s, steps)
    ensures var t := After(s, steps);
            && t.hub.Idle? && t.log == s.log && id !in t.clients && id in t.conns
            && t.conns[id].send.closed && t.conns[id].reader.ReaderEnded? && !t.conns[id].connOpen
  {
    NotPanicked(s);
    ReachableStep(s, ReadFail(id));
    var rest := Leaves(Apply(s, ReadFail(id)), id);
    StepThen(s, ReadFail(id), rest);
    steps := [ReadFail(id)] + rest;
  }

  /** The hub's default case: an offer removes a member exactly when 256 messages are
      buffered for it, and nothing but an offer or its own leaving removes one. */
  lemma RemovedWhenFull(s: State, step: Step, id: ClientId)
    requires Reachable(s) && Enabled(s, step) && id in s.clients
    ensures id in s.conns
    ensures id !in Apply(s, step).clients <==> step == Leave(id) || (step == Offer(id) && |s.conns[id].send.buf| == 256)
  {
    ReachableInv(s);
    MemberRemoved(s, step, id);
  }

  lemma MemberRemoved(s: State, step: Step, id: ClientId)
    requires HubInv(s) && Enabled(s, step) && id in s.clients && id in s.conns
    requires ConnInv(s.conns[id], id in s.clients, Pending(s, id), s.log)
    ensures id !in Apply(s, step).clients <==> step == Leave(id) || (step == Offer(id) && |s.conns[id].send.buf| == 256)
  {
  }

  // -------------------------------------------------------------- reaching the peers

  /** The writer is at work and no write has failed. */
  predicate Pumping(c: Conn) {
    c.writer.Waiting? || c.writer.Taken? || c.writer.Opened? || c.writer.Draining?
  }

  predicate CaughtUp(c: Conn) {
    c.writer.Waiting? && c.send.buf == []
  }

  lemma PumpStep(c: Conn, id: ClientId)
    requires Pumping(c) && !CaughtUp(c) && c.connOpen && !c.stage.Registering?
    requires c.writer.Draining? ==> c.writer.left <= |c.send.buf|
    ensures var next := NextWork(c, id);
            && WriterStep(next) && next.id == id && WriterReady(c, next)
            && var d := WriterResult(c, next);
               && Rank(d) < Rank(c) && Pumping(d) && d.connOpen && d.enqueued == c.enqueued && d.life == c.life
               && d.reader == c.reader && d.stage == c.stage && d.send.closed == c.send.closed
  {
  }

  lemma PumpFacts(s: State, id: ClientId)
    requires Reachable(s) && id in s.conns && Pumping(s.conns[id])
    ensures !s.panicked && !s.conns[id].stage.Registering?
    ensures s.conns[id].writer.Draining? ==> s.conns[id].writer.left <= |s.conns[id].send.buf|
    ensures CaughtUp(s.conns[id]) ==> PeerView(s.conns[id].wire) == s.conns[id].enqueued
  {
    ReachableInv(s);
    assert ConnInv(s.conns[id], id in s.clients, Pending(s, id), s.log);
  }

  /** A writer with an open connection can catch up on its own: some run of its steps
      alone empties the channel, and the peer then shows all that was enqueued. */
  lemma {:induction false} WriterCatchesUp(s: State, id: ClientId) returns (steps: seq<Step>)
    requires Reachable(s) && id in s.conns && Pumping(s.conns[id]) && s.conns[id].connOpen
    ensures CanRun(s, steps)
    ensures var t := After(s, steps);
            && id in t.conns && t == Put(s, id, t.conns[id]) && CaughtUp(t.conns[id]) && t.conns[id].connOpen
            && PeerView(t.conns[id].wire) == t.conns[id].enqueued == s.conns[id].enqueued
            && t.conns[id].life == s.conns[id].life && t.conns[id].reader == s.conns[id].reader
    decreases Rank(s.conns[id])
  {
    PumpFacts(s, id);
    if CaughtUp(s.conns[id]) {
      steps := [];
    } else {
      var next := NextWork(s.conns[id], id);
      PumpStep(s.conns[id], id);
      ReachableStep(s, next);
      var t := Apply(s, next);
      var rest := WriterCatchesUp(t, id);
      StepThen(s, next, rest);
      steps := [next] + rest;
    }
  }

  /** End to end: from every reachable state, a message of up to 512 bytes that arrives on
      an open connection can reach any member whose writer is at work on an open
      connection; its peer then shows every broadcast since it joined, the last being
      the cleaned message. */
  lemma MessageReachesPeer(s: State, a: ClientId, b: ClientId, raw: Bytes) returns (steps: seq<Step>)
    requires Reachable(s) && |raw| <= 512
    requires a in s.conns && s.conns[a].reader.Reading? && s.conns[a].connOpen
    requires b in s.conns && b in s.clients && Pumping(s.conns[b]) && s.conns[b].connOpen
    ensures CanRun(s, steps)
    ensures var t := After(s, steps);
            && t.log == s.log + [Clean(raw)]
            && b in t.conns && t.conns[b].life.Member? && t.conns[b].life.from <= |s.log|
            && PeerView(t.conns[b].wire) == t.log[t.conns[b].life.from..]
  {
    var catchUp := WriterCatchesUp(s, b);
    var ready := After(s, catchUp);
    ReachableRun(s, catchUp);
    assert ready.conns[a].reader.Reading? && ready.conns[a].connOpen;
    var send := ReadyReaches(ready, a, b, raw);
    RunThen(s, catchUp, send);
    steps := catchUp + send;
  }

  lemma ReadyReaches(s: State, a: ClientId, b: ClientId, raw: Bytes) returns (steps: seq<Step>)
    requires Reachable(s) && |raw| <= 512
    requires a in s.conns && s.conns[a].reader.Reading? && s.conns[a].connOpen
    requires b in s.conns && b in s.clients && CaughtUp(s.conns[b]) && s.conns[b].connOpen
    ensures CanRun(s, steps)
    ensures var t := After(s, steps);
            && t.log == s.log + [Clean(raw)]
            && b in t.conns && t.conns[b].life.Member? && t.conns[b].life.from <= |s.log|
            && PeerView(t.conns[b].wire) == t.log[t.conns[b].life.from..]
  {
    var wait := HubGetsIdle(s);
    var idle := After(s, wait);
    assert SamePumps(s.conns[a], idle.conns[a]) && SamePumps(s.conns[b], idle.conns[b]);
    ReachableRun(s, wait);
    var send := IdleReaches(idle, a, b, raw);
    RunThen(s, wait, send);
    steps := wait + send;
  }

  lemma IdleReaches(s: State, a: ClientId, b: ClientId, raw: Bytes) returns (steps: seq<Step>)
    requires Reachable(s) && |raw| <= 512 && s.hub.Idle?
    requires a in s.conns && s.conns[a].reader.Reading? && s.conns[a].connOpen
    requires b in s.conns && b in s.clients && s.conns[b].writer.Waiting? && s.conns[b].connOpen
    requires |s.conns[b].send.buf| < BUF_SIZE
    ensures CanRun(s, steps)
    ensures var t := After(s, steps);
            && t.log == s.log + [Clean(raw)]
            && b in t.conns && t.conns[b].life.Member? && t.conns[b].life.from <= |s.log|
            && PeerView(t.conns[b].wire) == t.log[t.conns[b].life.from..]
  {
    NotPanicked(s);
    var read := Apply(s, Read(a, raw));
    ReachableStep(s, Read(a, raw));
    var send := HeldReaches(read, a, b);
    StepThen(s, Read(a, raw), send);
    steps := [Read(a, raw)] + send;
  }

  lemma HeldReaches(s: State, a: ClientId, b: ClientId) returns (steps: seq<Step>)
    requires Reachable(s) && s.hub.Idle? && a in s.conns && s.conns[a].reader.Publishing?
    requires b in s.conns && b in s.clients && s.conns[b].writer.Waiting? && s.conns[b].connOpen
    requires |s.conns[b].send.buf| < BUF_SIZE
    ensures CanRun(s, steps)
    ensures var t := After(s, steps);
            && t.log == s.log + [s.conns[a].reader.message]
            && b in t.conns && t.conns[b].life.Member? && t.conns[b].life.from <= |s.log|
            && PeerView(t.conns[b].wire) == t.log[t.conns[b].life.from..]
  {
    var accept := IdleHubAccepts(s, a);
    var accepted := After(s, accept);
    ReachableRun(s, accept);
    var show := BufferedShown(accepted, b);
    RunThen(s, accept, show);
    steps := accept + show;
  }

  lemma BufferedShown(s: State, b: ClientId) returns (steps: seq<Step>)
    requires Reachable(s) && s.hub.Idle? && b in s.conns && b in s.clients
    requires s.conns[b].writer.Waiting? && s.conns[b].connOpen && s.conns[b].send.buf != []
    ensures CanRun(s, steps)
    ensures var t := After(s, steps);
            && t.log == s.log && b in t.conns && t.conns[b].life.Member? && t.conns[b].life.from < |s.log|
            && PeerView(t.conns[b].wire) == t.log[t.conns[b].life.from..]
  {
    steps := WriterCatchesUp(s, b);
    ReachableRun(s, steps);
    ShownAll(After(s, steps), b);
    ContiguousDelivery(s, b);
    assert s.conns[b].enqueued != [];
  }

  lemma ShownAll(t: State, b: ClientId)
    requires Reachable(t) && t.hub.Idle? && b in t.conns && b in t.clients && PeerView(t.conns[b].wire) == t.conns[b].enqueued
    ensures t.conns[b].life.Member? && t.conns[b].life.from <= |t.log|
    ensures PeerView(t.conns[b].wire) == t.log[t.conns[b].life.from..]
  {
    NoPanicCloseOnce(t);
    ContiguousDelivery(t, b);
  }

  /** Once its channel is closed, a writer with an open connection can write out what is
      buffered, then the Close frame, and end, closing the connection. */
  lemma WriterCloses(s: State, id: ClientId) returns (steps: seq<Step>)
    requires Reachable(s) && id in s.conns && Pumping(s.conns[id]) && s.conns[id].connOpen && s.conns[id].send.closed
    ensures CanRun(s, steps)
    ensures var t := After(s, steps);
            && id in t.conns && t.conns[id].writer.WriterEnded? && !t.conns[id].connOpen
            && PeerView(t.conns[id].wire) == s.conns[id].enqueued
            && t.conns[id].wire != [] && t.conns[id].wire[|t.conns[id].wire| - 1].Close?
  {
    var catchUp := WriterCatchesUp(s, id);
    var ready := After(s, catchUp);
    ReachableRun(s, catchUp);
    RunGrowsReachable(s, catchUp, id);
    NotPanicked(ready);
    var c := ready.conns[id];
    var saw := Apply(ready, Take(id));
    var wrote := Apply(saw, WriteClose(id, true));
    PeerViewSnoc(c.wire, Close);
    RunOne(wrote, StopWriter(id));
    StepThen(saw, WriteClose(id, true), [StopWriter(id)]);
    StepThen(ready, Take(id), [WriteClose(id, true)] + [StopWriter(id)]);
    var close := [Take(id)] + ([WriteClose(id, true)] + [StopWriter(id)]);
    RunThen(s, catchUp, close);
    steps := catchUp + close;
  }

  lemma RunGrowsReachable(s: State, steps: seq<Step>, id: ClientId)
    requires Reachable(s) && CanRun(s, steps) && id in s.conns
    ensures id in After(s, steps).conns && Grows(s.conns[id], After(s, steps).conns[id])
  {
    ReachableInv(s);
    RunGrows(s, steps, id);
  }

  /** The writer's four kinds of write, failing. */
  predicate WriteFails(step: Step) {
    (step.OpenFrame? || step.Flush? || step.WriteClose? || step.Tick?) && !step.ok
  }

  /** A write can fail whenever there is one, and a failed write puts nothing on the wire
      and leaves the writer one thing to do: end and close the connection. */
  lemma WriteErrorEnds(s: State, step: Step)
    requires Reachable(s) && Enabled(s, step) && WriteFails(step)
    ensures CanRun(s, [step] + [StopWriter(step.id)])
    ensures var t := After(s, [step] + [StopWriter(step.id)]);
            && step.id in t.conns && t.conns[step.id].writer.WriterEnded? && !t.conns[step.id].connOpen
            && t.conns[step.id].wire == s.conns[step.id].wire
    ensures forall other :: WriterStep(other) && other.id == step.id && Enabled(Apply(s, step), other)
                            ==> other == StopWriter(step.id)
  {
    NotPanicked(s);
    RunOne(Apply(s, step), StopWriter(step.id));
    StepThen(s, step, [StopWriter(step.id)]);
  }

  /** A write that can succeed can also fail. */
  lemma WritesCanFail(s: State, id: ClientId)
    ensures Enabled(s, OpenFrame(id, true)) ==> Enabled(s, OpenFrame(id, false))
    ensures Enabled(s, Flush(id, true)) ==> Enabled(s, Flush(id, false))
    ensures Enabled(s, WriteClose(id, true)) ==> Enabled(s, WriteClose(id, false))
    ensures Enabled(s, Tick(id, true)) ==> Enabled(s, Tick(id, false))
  {
  }

  /** A ping can be sent whenever the writer waits on an open connection. */
  lemma Pings(s: State, id: ClientId)
    requires Reachable(s) && id in s.conns && s.conns[id].writer.Waiting? && s.conns[id].connOpen
    ensures CanRun(s, [Tick(id, true)])
    ensures id in After(s, [Tick(id, true)]).conns
    ensures After(s, [Tick(id, true)]).conns[id].wire == s.conns[id].wire + [Ping]
  {
    NotPanicked(s);
    RunOne(s, Tick(id, true));
  }
}
