/** The inductive invariant of the chat server and its proof, step by step. */
module ChatInvariant {
  import opened Text
  import opened Chat

  const MAX_BATCH := BUF_SIZE + 1
  const MAX_FRAME := MAX_BATCH * MAX_MESSAGE_SIZE + BUF_SIZE

  predicate MsgOk(m: Bytes) {
    Free(NEWLINE, m) && |m| <= MAX_MESSAGE_SIZE
  }

  predicate AllOk(ms: seq<Bytes>) {
    forall i :: 0 <= i < |ms| ==> MsgOk(ms[i])
  }

  /** The hub is in a broadcast round and has not reached this client yet. */
  predicate Pending(s: State, id: ClientId) {
    s.hub.Round? && id in s.hub.todo
  }

  // ------------------------------------------------------------- the invariant

  /** Membership, the channel's closed flag and the enqueued messages agree. */
  predicate Membership(c: Conn, member: bool, pending: bool, log: seq<Bytes>) {
    match c.life
    case Newcomer =>
      && !member && c.stage.Registering? && c.reader.Unborn? && c.writer.NotRunning?
      && c.closes == 0 && !c.send.closed && c.enqueued == [] && c.wire == []
    case Member(from) =>
      && member && !c.stage.Registering? && c.closes == 0 && !c.send.closed
      && from <= |log| - (if pending then 1 else 0)
      && c.enqueued == log[from..|log| - (if pending then 1 else 0)]
    case Gone(from, until) =>
      && !member && !c.stage.Registering? && c.closes == 1 && c.send.closed
      && from <= until <= |log| && c.enqueued == log[from..until]
  }

  /** Nothing is lost, repeated or reordered on the way to the peer. */
  predicate Flow(c: Conn) {
    && c.enqueued == PeerView(c.wire) + c.lost + InHand(c.writer) + c.send.buf
    && |c.send.buf| <= BUF_SIZE
    && AllOk(c.enqueued)
  }

  /** The drain loop never owes more than is buffered. */
  predicate WriterOk(c: Conn) {
    && (c.writer.Draining? ==>
          c.writer.batch != [] && c.writer.left <= |c.send.buf|
          && |c.writer.batch| + c.writer.left <= MAX_BATCH)
    && (c.writer.SawClose? ==> c.send.closed && c.send.buf == [])
    && (c.failed || c.lost != [] ==> c.writer.Exiting? || c.writer.WriterEnded?)
    && (c.lost != [] ==> c.failed)
    && (c.writer.Exiting? || c.writer.WriterEnded? ==> c.failed || Finished(c))
    && (c.writer.NotRunning? <==> c.stage.Registering? || c.stage.SpawningWriter?)
  }

  /** The Close frame is out, after everything that was ever enqueued. */
  predicate Finished(c: Conn) {
    && c.wire != [] && c.wire[|c.wire| - 1].Close?
    && c.send.closed && c.send.buf == [] && c.lost == []
  }

  predicate WireOk(c: Conn) {
    && (forall i :: 0 <= i < |c.wire| - 1 ==> !c.wire[i].Close?)
    && (c.wire != [] && c.wire[|c.wire| - 1].Close? ==>
          !c.failed && Finished(c) && (c.writer.Exiting? || c.writer.WriterEnded?))
    && (forall i :: 0 <= i < |c.wire| && c.wire[i].Data? ==> FrameOk(c.wire[i].payload))
  }

  /** A data frame carries 1 to 257 messages and at most 131840 bytes. */
  predicate FrameOk(payload: Bytes) {
    |Split(NEWLINE, payload)| <= MAX_BATCH && |payload| <= MAX_FRAME
  }

  predicate ReaderOk(c: Conn) {
    && (c.reader.Unborn? <==> !c.stage.Served?)
    && (c.reader.Publishing? ==> MsgOk(c.reader.message))
    && (c.reader.HangingUp? || c.reader.ReaderEnded? ==> c.life.Gone?)
    && (c.reader.ReaderEnded? || c.writer.WriterEnded? ==> !c.connOpen)
  }

  predicate ConnInv(c: Conn, member: bool, pending: bool, log: seq<Bytes>) {
    Membership(c, member, pending, log) && Flow(c) && WriterOk(c) && WireOk(c) && ReaderOk(c)
  }

  predicate HubInv(s: State) {
    && !s.panicked
    && s.clients <= s.conns.Keys
    && AllOk(s.log)
    && (s.hub.Round? ==> s.hub.todo <= s.clients && s.log != [] && s.hub.message == s.log[|s.log| - 1])
  }

  ghost predicate Inv(s: State) {
    && HubInv(s)
    && forall id :: id in s.conns ==> ConnInv(s.conns[id], id in s.clients, Pending(s, id), s.log)
  }

  // ------------------------------------------------------------ supporting facts

  lemma CleanOk(raw: Bytes)
    requires |raw| <= MAX_MESSAGE_SIZE
    ensures MsgOk(Clean(raw))
  {
    assert NEWLINE !in Spaced(raw);
    assert NEWLINE !in Clean(raw);
  }

  lemma PeerViewSnoc(wire: seq<Frame>, f: Frame)
    ensures PeerView(wire + [f]) == PeerView(wire) + (if f.Data? then Split(NEWLINE, f.payload) else [])
  {
    assert (wire + [f])[..|wire|] == wire;
  }

  // ------------------------------------------------------- steps of the writer

  lemma TakeKeeps(c: Conn, member: bool, pending: bool, log: seq<Bytes>)
    requires ConnInv(c, member, pending, log) && c.writer.Waiting? && CanReceive(c.send)
    ensures ConnInv(DoTake(c), member, pending, log)
  {
    if c.send.buf != [] {
      assert c.send.buf == [c.send.buf[0]] + c.send.buf[1..];
    }
  }

  lemma OpenFrameKeeps(c: Conn, ok: bool, member: bool, pending: bool, log: seq<Bytes>)
    requires ConnInv(c, member, pending, log) && c.writer.Taken?
    ensures ConnInv(DoOpenFrame(c, ok), member, pending, log)
  {
  }

  lemma DrainKeeps(c: Conn, member: bool, pending: bool, log: seq<Bytes>)
    requires ConnInv(c, member, pending, log) && c.writer.Draining? && c.writer.left > 0
    ensures c.send.buf != [] && ConnInv(DoDrain(c), member, pending, log)
  {
    assert c.send.buf == [c.send.buf[0]] + c.send.buf[1..];
  }

  /** A batch of clean messages makes a frame that the peer splits back into it. */
  lemma FrameOfBatch(batch: seq<Bytes>)
    requires batch != [] && AllOk(batch) && |batch| <= MAX_BATCH
    ensures Split(NEWLINE, Join(NEWLINE, batch)) == batch && FrameOk(Join(NEWLINE, batch))
  {
    SplitJoinFree(NEWLINE, batch);
    JoinLength(NEWLINE, batch, MAX_MESSAGE_SIZE);
  }

  lemma BatchOk(c: Conn)
    requires Flow(c) && c.writer.Draining?
    ensures AllOk(c.writer.batch)
  {
    var start := |PeerView(c.wire) + c.lost|;
    assert c.writer.batch == c.enqueued[start..start + |c.writer.batch|];
  }

  lemma Regroup(a: seq<Bytes>, b: seq<Bytes>, c: seq<Bytes>)
    ensures a + [] + b + c == (a + b) + [] + [] + c
  {
    assert a + [] == a && (a + b) + [] + [] == a + b;
  }

  lemma FlushFlow(c: Conn)
    requires Flow(c) && c.writer.Draining? && Split(NEWLINE, Join(NEWLINE, c.writer.batch)) == c.writer.batch
    requires c.lost == []
    ensures Flow(DoFlush(c, true))
  {
    PeerViewSnoc(c.wire, Data(Join(NEWLINE, c.writer.batch)));
    Regroup(PeerView(c.wire), c.writer.batch, c.send.buf);
  }

  lemma FlushWire(c: Conn)
    requires WireOk(c) && c.writer.Draining? && FrameOk(Join(NEWLINE, c.writer.batch))
    ensures WireOk(DoFlush(c, true))
  {
    var d := DoFlush(c, true);
    var n := |c.wire|;
    assert forall i :: 0 <= i < n ==> d.wire[i] == c.wire[i];
    assert d.wire[n] == Data(Join(NEWLINE, c.writer.batch));
    assert forall i :: 0 <= i < n ==> !c.wire[i].Close?;
  }

  lemma FlushFails(c: Conn, member: bool, pending: bool, log: seq<Bytes>)
    requires ConnInv(c, member, pending, log) && c.writer.Draining?
    ensures ConnInv(DoFlush(c, false), member, pending, log)
  {
  }

  lemma FlushKeeps(c: Conn, ok: bool, member: bool, pending: bool, log: seq<Bytes>)
    requires ConnInv(c, member, pending, log) && c.writer.Draining? && c.writer.left == 0
    ensures ConnInv(DoFlush(c, ok), member, pending, log)
  {
    if ok {
      BatchOk(c);
      FrameOfBatch(c.writer.batch);
      FlushFlow(c);
      FlushWire(c);
    } else {
      FlushFails(c, member, pending, log);
    }
  }

  /** Control frames do not change what the peer shows. */
  lemma ControlFlow(c: Conn, f: Frame, next: Writer, ok: bool)
    requires Flow(c) && !f.Data? && InHand(c.writer) == InHand(next) == []
    ensures Flow(DoWrite(c, f, next, ok))
  {
    PeerViewSnoc(c.wire, f);
  }

  lemma CloseKeeps(c: Conn, ok: bool, member: bool, pending: bool, log: seq<Bytes>)
    requires ConnInv(c, member, pending, log) && c.writer.SawClose?
    ensures ConnInv(DoWrite(c, Close, Exiting, ok), member, pending, log)
  {
    ControlFlow(c, Close, Exiting, ok);
  }

  lemma PingKeeps(c: Conn, ok: bool, member: bool, pending: bool, log: seq<Bytes>)
    requires ConnInv(c, member, pending, log) && c.writer.Waiting?
    ensures ConnInv(DoWrite(c, Ping, Waiting, ok), member, pending, log)
  {
    ControlFlow(c, Ping, Waiting, ok);
  }

  // ---------------------------------------------------------- steps of the hub

  lemma EnqueueKeeps(c: Conn, m: Bytes, log: seq<Bytes>)
    requires ConnInv(c, true, true, log) && |c.send.buf| < BUF_SIZE
    requires log != [] && m == log[|log| - 1] && MsgOk(m)
    ensures ConnInv(Enqueue(c, m), true, false, log)
  {
    assert log[c.life.from..|log| - 1] + [m] == log[c.life.from..|log|];
  }

  lemma ShutKeeps(c: Conn, pending: bool, log: seq<Bytes>, until: nat)
    requires ConnInv(c, true, pending, log)
    requires until == |log| - (if pending then 1 else 0)
    ensures ConnInv(Shut(c, until), false, false, log)
  {
  }

  /** A new log entry leaves every client's account correct: members now owe it. */
  lemma PublishKeeps(c: Conn, member: bool, log: seq<Bytes>, m: Bytes)
    requires ConnInv(c, member, false, log)
    ensures ConnInv(c, member, member, log + [m])
  {
    match c.life
    case Newcomer =>
    case Member(from) => assert (log + [m])[from..|log|] == log[from..|log|];
    case Gone(from, until) => assert (log + [m])[from..until] == log[from..until];
  }

  // ----------------------------------------------------------- the whole machine

  /** t differs from s in one client only: it now is c, with the given membership. */
  ghost predicate OnlyChanges(s: State, t: State, id: ClientId, c: Conn, member: bool, pending: bool) {
    && t.log == s.log
    && t.conns == s.conns[id := c]
    && (id in t.clients) == member && Pending(t, id) == pending
    && (forall x :: x in s.conns && x != id ==> (x in t.clients <==> x in s.clients))
    && (forall x :: x in s.conns && x != id ==> Pending(t, x) == Pending(s, x))
  }

  /** Changing one client only: the invariant need only be shown for that client. */
  lemma ChangeKeeps(s: State, t: State, id: ClientId, c: Conn, member: bool, pending: bool)
    requires Inv(s) && HubInv(t) && OnlyChanges(s, t, id, c, member, pending)
    requires ConnInv(c, member, pending, s.log)
    ensures Inv(t)
  {
  }

  lemma PutChanges(s: State, id: ClientId, c: Conn)
    requires HubInv(s)
    ensures HubInv(Put(s, id, c))
    ensures OnlyChanges(s, Put(s, id, c), id, c, id in s.clients, Pending(s, id))
  {
  }

  lemma PutKeeps(s: State, id: ClientId, c: Conn)
    requires Inv(s)
    requires ConnInv(c, id in s.clients, Pending(s, id), s.log)
    ensures Inv(Put(s, id, c))
  {
    PutChanges(s, id, c);
    ChangeKeeps(s, Put(s, id, c), id, c, id in s.clients, Pending(s, id));
  }

  lemma RegisterChanges(s: State, id: ClientId, c: Conn)
    requires HubInv(s) && s.hub.Idle? && id in s.conns
    requires c == s.conns[id].(stage := SpawningWriter, life := Member(|s.log|))
    ensures HubInv(DoRegister(s, id)) && OnlyChanges(s, DoRegister(s, id), id, c, true, false)
  {
  }

  lemma RegisterKeeps(s: State, id: ClientId)
    requires Inv(s) && Enabled(s, Register(id))
    ensures Inv(DoRegister(s, id))
  {
    var c := s.conns[id].(stage := SpawningWriter, life := Member(|s.log|));
    JoinKeeps(s.conns[id], s.log);
    RegisterChanges(s, id, c);
    ChangeKeeps(s, DoRegister(s, id), id, c, true, false);
  }

  lemma JoinKeeps(c: Conn, log: seq<Bytes>)
    requires ConnInv(c, false, false, log) && c.stage.Registering?
    ensures ConnInv(c.(stage := SpawningWriter, life := Member(|log|)), true, false, log)
  {
  }

  lemma LeaveKeeps(s: State, id: ClientId)
    requires Inv(s) && Enabled(s, Leave(id))
    ensures Inv(DoLeave(s, id))
  {
    var c := s.conns[id];
    if id in s.clients {
      ShutKeeps(c, false, s.log, |s.log|);
      HangUpKeeps(Shut(c, |s.log|), s.log);
      EvictKeeps(s, Idle, id, Shut(c, |s.log|).(reader := HangingUp));
    } else {
      HangUpKeeps(c, s.log);
      PutKeeps(s, id, c.(reader := HangingUp));
    }
  }

  lemma HangUpKeeps(c: Conn, log: seq<Bytes>)
    requires ConnInv(c, false, false, log) && c.reader.Leaving?
    ensures ConnInv(c.(reader := HangingUp), false, false, log)
  {
  }

  function Evict(s: State, hub: Hub, id: ClientId, c: Conn): State {
    s.(hub := hub, clients := s.clients - {id}, conns := s.conns[id := c])
  }

  lemma EvictChanges(s: State, hub: Hub, id: ClientId, c: Conn)
    requires HubInv(s) && (id in s.conns)
    requires hub == if s.hub.Idle? then Idle else s.hub.(todo := s.hub.todo - {id})
    ensures HubInv(Evict(s, hub, id, c)) && OnlyChanges(s, Evict(s, hub, id, c), id, c, false, false)
  {
  }

  /** Removing one client from the hub's set. */
  lemma EvictKeeps(s: State, hub: Hub, id: ClientId, c: Conn)
    requires Inv(s) && id in s.conns && ConnInv(c, false, false, s.log)
    requires hub == if s.hub.Idle? then Idle else s.hub.(todo := s.hub.todo - {id})
    ensures Inv(Evict(s, hub, id, c))
  {
    EvictChanges(s, hub, id, c);
    ChangeKeeps(s, Evict(s, hub, id, c), id, c, false, false);
  }

  lemma PublishHub(s: State, id: ClientId)
    requires HubInv(s) && Enabled(s, Publish(id)) && MsgOk(s.conns[id].reader.message)
    ensures HubInv(DoPublish(s, id))
  {
  }

  lemma PublishOne(s: State, id: ClientId, x: ClientId)
    requires Enabled(s, Publish(id)) && x in s.conns
    requires ConnInv(s.conns[x], x in s.clients, false, s.log)
    ensures var t := DoPublish(s, id);
            x in t.conns && ConnInv(t.conns[x], x in t.clients, Pending(t, x), t.log)
  {
    var m := s.conns[id].reader.message;
    PublishKeeps(s.conns[x], x in s.clients, s.log, m);
    if x == id {
      assert ConnInv(s.conns[x].(reader := Reading), x in s.clients, x in s.clients, s.log + [m]);
    }
  }

  lemma PublishRoundKeeps(s: State, id: ClientId)
    requires Inv(s) && Enabled(s, Publish(id))
    ensures Inv(DoPublish(s, id))
  {
    PublishHub(s, id);
    forall x | x in s.conns
      ensures var t := DoPublish(s, id);
              x in t.conns && ConnInv(t.conns[x], x in t.clients, Pending(t, x), t.log)
    {
      PublishOne(s, id, x);
    }
  }

  function TickOff(s: State, id: ClientId, c: Conn): State
    requires s.hub.Round?
  {
    s.(hub := s.hub.(todo := s.hub.todo - {id}), conns := s.conns[id := c])
  }

  lemma TickOffChanges(s: State, id: ClientId, c: Conn)
    requires HubInv(s) && s.hub.Round? && id in s.clients
    ensures HubInv(TickOff(s, id, c)) && OnlyChanges(s, TickOff(s, id, c), id, c, true, false)
  {
  }

  /** Ticking one client off the broadcast round. */
  lemma TickOffKeeps(s: State, id: ClientId, c: Conn)
    requires Inv(s) && s.hub.Round? && id in s.clients && ConnInv(c, true, false, s.log)
    ensures Inv(TickOff(s, id, c))
  {
    TickOffChanges(s, id, c);
    ChangeKeeps(s, TickOff(s, id, c), id, c, true, false);
  }

  /** What the turn of one client in the broadcast loop amounts to. */
  lemma OfferCases(s: State, id: ClientId)
    requires id in s.conns && s.hub.Round? && s.log != [] && !s.conns[id].send.closed
    ensures |s.conns[id].send.buf| < BUF_SIZE ==>
              DoOffer(s, id) == TickOff(s, id, Enqueue(s.conns[id], s.hub.message))
    ensures |s.conns[id].send.buf| >= BUF_SIZE ==>
              DoOffer(s, id) == Evict(s, s.hub.(todo := s.hub.todo - {id}), id, Shut(s.conns[id], |s.log| - 1))
  {
  }

  lemma PendingInv(s: State, id: ClientId)
    requires Inv(s) && s.hub.Round? && id in s.hub.todo
    ensures id in s.conns && id in s.clients && ConnInv(s.conns[id], true, true, s.log)
  {
  }

  lemma EnqueuedOk(s: State, id: ClientId)
    requires HubInv(s) && s.hub.Round? && id in s.conns && |s.conns[id].send.buf| < BUF_SIZE
    requires ConnInv(s.conns[id], true, true, s.log)
    ensures ConnInv(Enqueue(s.conns[id], s.hub.message), true, false, s.log)
  {
    EnqueueKeeps(s.conns[id], s.hub.message, s.log);
  }

  lemma OfferRoomKeeps(s: State, id: ClientId)
    requires Inv(s) && s.hub.Round? && id in s.clients && |s.conns[id].send.buf| < BUF_SIZE
    requires ConnInv(s.conns[id], true, true, s.log)
    ensures Inv(TickOff(s, id, Enqueue(s.conns[id], s.hub.message)))
  {
    EnqueuedOk(s, id);
    TickOffKeeps(s, id, Enqueue(s.conns[id], s.hub.message));
  }

  lemma OfferFullKeeps(s: State, id: ClientId)
    requires Inv(s) && s.hub.Round? && id in s.clients
    requires ConnInv(s.conns[id], true, true, s.log)
    ensures Inv(Evict(s, s.hub.(todo := s.hub.todo - {id}), id, Shut(s.conns[id], |s.log| - 1)))
  {
    ShutKeeps(s.conns[id], true, s.log, |s.log| - 1);
    EvictKeeps(s, s.hub.(todo := s.hub.todo - {id}), id, Shut(s.conns[id], |s.log| - 1));
  }

  lemma OfferKeeps(s: State, id: ClientId)
    requires Inv(s) && Enabled(s, Offer(id))
    ensures Inv(DoOffer(s, id))
  {
    PendingInv(s, id);
    OfferCases(s, id);
    if |s.conns[id].send.buf| < BUF_SIZE {
      OfferRoomKeeps(s, id);
    } else {
      OfferFullKeeps(s, id);
    }
  }

  lemma EndRoundKeeps(s: State)
    requires Inv(s) && Enabled(s, EndRound)
    ensures Inv(s.(hub := Idle))
  {
    forall x | x in s.conns
      ensures ConnInv(s.conns[x], x in s.clients, false, s.log)
    {
      assert !Pending(s, x);
    }
  }

  lemma LocalStepKeeps(c: Conn, step: Step, m: bool, p: bool, log: seq<Bytes>)
    requires LocalStep(step) && LocalReady(c, step)
    requires ConnInv(c, m, p, log)
    ensures ConnInv(LocalResult(c, step), m, p, log)
  {
    if step.Read? {
      CleanOk(step.raw);
    }
  }

  lemma WriterStepKeeps(c: Conn, step: Step, m: bool, p: bool, log: seq<Bytes>)
    requires WriterStep(step) && WriterReady(c, step)
    requires ConnInv(c, m, p, log)
    ensures ConnInv(WriterResult(c, step), m, p, log)
  {
    match step
    case Take(_) => TakeKeeps(c, m, p, log);
    case OpenFrame(_, ok) => OpenFrameKeeps(c, ok, m, p, log);
    case ReadLen(_) =>
    case Drain(_) => DrainKeeps(c, m, p, log);
    case Flush(_, ok) => FlushKeeps(c, ok, m, p, log);
    case WriteClose(_, ok) => CloseKeeps(c, ok, m, p, log);
    case Tick(_, ok) => PingKeeps(c, ok, m, p, log);
    case StopWriter(_) =>
  }

  lemma OwnStepKeeps(s: State, step: Step)
    requires Inv(s) && Enabled(s, step) && (LocalStep(step) || WriterStep(step))
    ensures Inv(Apply(s, step))
  {
    var c := s.conns[step.id];
    if LocalStep(step) {
      LocalStepKeeps(c, step, step.id in s.clients, Pending(s, step.id), s.log);
      PutKeeps(s, step.id, LocalResult(c, step));
    } else {
      WriterStepKeeps(c, step, step.id in s.clients, Pending(s, step.id), s.log);
      PutKeeps(s, step.id, WriterResult(c, step));
    }
  }

  lemma HubStepKeeps(s: State, step: Step)
    requires Inv(s) && Enabled(s, step) && !LocalStep(step) && !WriterStep(step)
    ensures Inv(Apply(s, step))
  {
    match step
    case Upgrade(id) => PutKeeps(s, id, NewConn());
    case Register(id) => RegisterKeeps(s, id);
    case Publish(id) => PublishRoundKeeps(s, id);
    case Leave(id) => LeaveKeeps(s, id);
    case Offer(id) => OfferKeeps(s, id);
    case EndRound => EndRoundKeeps(s);
  }

  /** Every step keeps the invariant. */
  lemma StepKeeps(s: State, step: Step)
    requires Inv(s) && Enabled(s, step)
    ensures Inv(Apply(s, step))
  {
    if LocalStep(step) || WriterStep(step) {
      OwnStepKeeps(s, step);
    } else {
      HubStepKeeps(s, step);
    }
  }

  lemma {:induction false} RunKeeps(s: State, steps: seq<Step>)
    requires Inv(s) && CanRun(s, steps)
    ensures Inv(After(s, steps))
    decreases |steps|
  {
    if steps != [] {
      StepKeeps(s, steps[0]);
      RunKeeps(Apply(s, steps[0]), steps[1..]);
    }
  }

  /** The invariant holds in every reachable state. */
  lemma ReachableInv(s: State)
    requires Reachable(s)
    ensures Inv(s)
  {
    var steps :| CanRun(Init(), steps) && After(Init(), steps) == s;
    RunKeeps(Init(), steps);
  }
}
