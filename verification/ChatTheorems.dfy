/** What the chat server guarantees in every interleaving of its goroutines. */
module ChatTheorems {
  import opened Text
  import opened Chat
  import opened ChatInvariant

  // ------------------------------------------------------------------- messages

  lemma {:induction false} SpacedIsJoin(raw: Bytes)
    ensures Spaced(raw) == Join(SPACE, Split(NEWLINE, raw))
  {
    if raw != [] {
      var rest := Split(NEWLINE, raw[1..]);
      SpacedIsJoin(raw[1..]);
      assert Spaced(raw) == [if raw[0] == NEWLINE then SPACE else raw[0]] + Spaced(raw[1..]);
      if raw[0] == NEWLINE {
        assert ([[]] + rest)[1..] == rest;
      } else {
        JoinHead(SPACE, raw[0], rest);
      }
    }
  }

  lemma JoinHead(sep: Byte, x: Byte, parts: seq<Bytes>)
    requires parts != []
    ensures Join(sep, [[x] + parts[0]] + parts[1..]) == [x] + Join(sep, parts)
  {
    assert ([[x] + parts[0]] + parts[1..])[1..] == parts[1..];
  }

  lemma SpacedFree(raw: Bytes)
    ensures Free(NEWLINE, raw) ==> Spaced(raw) == raw
    ensures Free(NEWLINE, Spaced(raw))
  {
  }

  /** A newline is white space before and after its replacement. */
  lemma SpacedSpaces(raw: Bytes, i: nat)
    requires i <= |raw|
    ensures SpaceAt(Spaced(raw), i) == SpaceAt(raw, i)
  {
  }

  lemma {:induction false} SpacedBlank(raw: Bytes, i: nat, j: nat)
    requires i <= j <= |raw|
    ensures Blank(Spaced(raw), i, j) <==> Blank(raw, i, j)
    decreases j - i
  {
    SpacedSpaces(raw, i);
    if i < j && SpaceAt(raw, i) > 0 && i + SpaceAt(raw, i) <= j {
      SpacedBlank(raw, i + SpaceAt(raw, i), j);
    }
  }

  lemma SpacedBefore(raw: Bytes, lo: nat, j: nat)
    requires lo <= j <= |raw|
    ensures SpaceBefore(Spaced(raw), lo, j) == SpaceBefore(raw, lo, j)
  {
    if lo + 1 <= j {
      SpacedSpaces(raw, j - 1);
    }
    if lo + 2 <= j {
      SpacedSpaces(raw, j - 2);
    }
    if lo + 3 <= j {
      SpacedSpaces(raw, j - 3);
    }
  }

  /** raw[i..j] is what is left between the white space at both ends. */
  predicate Trimmed(raw: Bytes, i: nat, j: nat) {
    && i <= j <= |raw| && Blank(raw, 0, i) && Blank(raw, j, |raw|)
    && SpaceAt(raw, i) == 0 && SpaceBefore(raw, i, j) == 0
  }

  /** What the reader broadcasts: the message less the white space around it, its lines
      put together with spaces. It never holds a newline, so a frame that joins it with
      others by newlines can be split again; and without newlines inside it is
      byte for byte what the peer sent. */
  lemma CleanedMessage(raw: Bytes)
    ensures exists i: nat, j: nat :: Trimmed(raw, i, j) && Clean(raw) == Join(SPACE, Split(NEWLINE, raw[i..j]))
              && (Free(NEWLINE, raw[i..j]) ==> Clean(raw) == raw[i..j])
    ensures Free(NEWLINE, Clean(raw)) && |Clean(raw)| <= |raw|
  {
    var s := Spaced(raw);
    var i := TrimStart(s, 0);
    var j := TrimEnd(s, i, |s|);
    SpacedSpaces(raw, i);
    SpacedBefore(raw, i, j);
    SpacedBlank(raw, 0, i);
    SpacedBlank(raw, j, |raw|);
    assert Trimmed(raw, i, j);
    assert s[i..j] == Spaced(raw[i..j]);
    SpacedIsJoin(raw[i..j]);
    SpacedFree(raw[i..j]);
  }

  /** The message a reader has read and not yet handed to the hub. */
  function InReader(r: Reader): seq<Bytes> {
    if r.Publishing? then [r.message] else []
  }

  function Held(s: State, id: ClientId): seq<Bytes> {
    if id in s.conns then InReader(s.conns[id].reader) else []
  }

  /** What client id's reader reads in a run, cleaned, in order. */
  function ReadBy(steps: seq<Step>, id: ClientId): seq<Bytes> {
    if steps == [] then []
    else Got(steps[0], id) + ReadBy(steps[1..], id)
  }

  /** What the hub accepts in a run: from client id, and from everybody. */
  function PublishedBy(s: State, steps: seq<Step>, id: ClientId): seq<Bytes>
    requires CanRun(s, steps)
    decreases |steps|
  {
    if steps == [] then []
    else Given(s, steps[0], id)
         + PublishedBy(Apply(s, steps[0]), steps[1..], id)
  }

  function Published(s: State, steps: seq<Step>): seq<Bytes>
    requires CanRun(s, steps)
    decreases |steps|
  {
    if steps == [] then []
    else (if steps[0].Publish? then [s.conns[steps[0].id].reader.message] else [])
         + Published(Apply(s, steps[0]), steps[1..])
  }

  function Got(step: Step, id: ClientId): seq<Bytes> {
    if step.Read? && step.id == id then [Clean(step.raw)] else []
  }

  function Given(s: State, step: Step, id: ClientId): seq<Bytes>
    requires Enabled(s, step)
  {
    if step == Publish(id) then [s.conns[id].reader.message] else []
  }

  lemma OwnReads(c: Conn, step: Step)
    ensures LocalStep(step) && LocalReady(c, step) && (c.reader.Unborn? <==> !c.stage.Served?) ==>
              InReader(LocalResult(c, step).reader) == InReader(c.reader) + Got(step, step.id)
    ensures WriterStep(step) && WriterReady(c, step) ==> WriterResult(c, step).reader == c.reader
  {
  }

  lemma HubReads(s: State, step: Step, id: ClientId)
    requires Sane(s, id) && Enabled(s, step) && !LocalStep(step) && !WriterStep(step)
    requires !step.EndRound? && step.id == id
    ensures Given(s, step, id) + Held(Apply(s, step), id) == Held(s, id)
  {
  }

  lemma OtherReads(s: State, step: Step, id: ClientId)
    requires Enabled(s, step) && (step.EndRound? || step.id != id)
    ensures Given(s, step, id) == [] && Got(step, id) == [] && Held(Apply(s, step), id) == Held(s, id)
  {
    if id in s.conns {
      OtherClientsKept(s, step, id);
    }
  }

  lemma StepReads(s: State, step: Step, id: ClientId)
    requires Enabled(s, step) && (id in s.conns ==> Sane(s, id))
    ensures Given(s, step, id) + Held(Apply(s, step), id) == Held(s, id) + Got(step, id)
  {
    if step.EndRound? || step.id != id {
      OtherReads(s, step, id);
    } else if LocalStep(step) || WriterStep(step) {
      OwnReads(s.conns[id], step);
    } else if id in s.conns {
      HubReads(s, step, id);
    }
  }

  lemma Rearrange(given: seq<Bytes>, now: seq<Bytes>, was: seq<Bytes>, got: seq<Bytes>,
                  out: seq<Bytes>, end: seq<Bytes>, later: seq<Bytes>)
    requires given + now == was + got && out + end == now + later
    ensures (given + out) + end == was + (got + later)
  {
    assert (given + out) + end == given + (out + end);
    assert given + (now + later) == (given + now) + later;
  }

  lemma {:induction false} RunReads(s: State, steps: seq<Step>, id: ClientId)
    requires Reachable(s) && CanRun(s, steps)
    ensures PublishedBy(s, steps, id) + Held(After(s, steps), id) == Held(s, id) + ReadBy(steps, id)
    decreases |steps|
  {
    if steps != [] {
      var t := Apply(s, steps[0]);
      ReachableStep(s, steps[0]);
      if id in s.conns {
        ReachableSane(s, id);
      }
      StepReads(s, steps[0], id);
      RunReads(t, steps[1..], id);
      Rearrange(Given(s, steps[0], id), Held(t, id), Held(s, id), Got(steps[0], id),
                PublishedBy(t, steps[1..], id), Held(After(s, steps), id), ReadBy(steps[1..], id));
    }
  }

  lemma ReachableSane(s: State, id: ClientId)
    requires Reachable(s) && id in s.conns
    ensures Sane(s, id)
  {
    ReachableInv(s);
    InvSane(s, id);
  }

  lemma ReachableInit()
    ensures Reachable(Init())
  {
    assert CanRun(Init(), []) && After(Init(), []) == Init();
  }

  lemma {:induction false} RunLogs(s: State, steps: seq<Step>)
    requires CanRun(s, steps)
    ensures After(s, steps).log == s.log + Published(s, steps)
    decreases |steps|
  {
    if steps != [] {
      RunLogs(Apply(s, steps[0]), steps[1..]);
    }
  }

  /** The broadcast sequence is exactly what the readers handed over, and what each
      client's reader handed over is what it read, cleaned, each message once and in
      order, less the one it may still hold. */
  lemma ReadsPublishedOnce(steps: seq<Step>, id: ClientId)
    requires CanRun(Init(), steps)
    ensures After(Init(), steps).log == Published(Init(), steps)
    ensures PublishedBy(Init(), steps, id) + Held(After(Init(), steps), id) == ReadBy(steps, id)
  {
    ReachableInit();
    RunReads(Init(), steps, id);
    RunLogs(Init(), steps);
  }

  /** How far a reader has come: 1 while it serves, more once it is leaving. */
  function ReaderPhase(r: Reader): nat {
    match r
    case Unborn => 0
    case Reading => 1
    case Publishing(_) => 1
    case Leaving => 2
    case HangingUp => 3
    case ReaderEnded => 4
  }

  function PhaseOf(s: State, id: ClientId): nat {
    if id in s.conns then ReaderPhase(s.conns[id].reader) else 0
  }

  lemma OwnReaderPhase(c: Conn, step: Step)
    requires LocalStep(step) && LocalReady(c, step) && (c.reader.Unborn? <==> !c.stage.Served?)
    ensures var was, now := ReaderPhase(c.reader), ReaderPhase(LocalResult(c, step).reader);
            was <= now && (was < 2 <= now ==> step.ReadFail?)
  {
  }

  lemma StepReaderPhase(s: State, step: Step, id: ClientId)
    requires Enabled(s, step) && (id in s.conns ==> Sane(s, id))
    ensures PhaseOf(s, id) <= PhaseOf(Apply(s, step), id)
    ensures PhaseOf(s, id) < 2 <= PhaseOf(Apply(s, step), id) ==> step == ReadFail(id)
  {
    if step.EndRound? || step.id != id {
      if id in s.conns {
        OtherClientsKept(s, step, id);
      }
    } else if LocalStep(step) {
      OwnReaderPhase(s.conns[id], step);
    } else if WriterStep(step) {
      OwnReads(s.conns[id], step);
    }
  }

  lemma {:induction false} RunReaderPhase(s: State, steps: seq<Step>, id: ClientId)
    requires Reachable(s) && CanRun(s, steps)
    ensures Reachable(After(s, steps))
    ensures PhaseOf(s, id) <= PhaseOf(After(s, steps), id)
    ensures PhaseOf(s, id) < 2 <= PhaseOf(After(s, steps), id) ==> ReadFail(id) in steps
    decreases |steps|
  {
    if steps != [] {
      ReachableStep(s, steps[0]);
      if id in s.conns {
        ReachableSane(s, id);
      }
      StepReaderPhase(s, steps[0], id);
      RunReaderPhase(Apply(s, steps[0]), steps[1..], id);
      assert forall x :: x in steps[1..] ==> x in steps;
    }
  }

  /** A reader stops serving only after a read error. */
  lemma LeavesOnlyOnError(steps: seq<Step>, id: ClientId)
    requires CanRun(Init(), steps) && id in After(Init(), steps).conns
    requires var r := After(Init(), steps).conns[id].reader; r.Leaving? || r.HangingUp? || r.ReaderEnded?
    ensures ReadFail(id) in steps
  {
    ReachableInit();
    RunReaderPhase(Init(), steps, id);
  }

  /** After a read error a client reads and publishes nothing more, and it can only
      hang up once the hub has removed it. */
  lemma ReadErrorIsFinal(s: State, id: ClientId, steps: seq<Step>)
    requires Reachable(s) && Enabled(s, ReadFail(id)) && CanRun(Apply(s, ReadFail(id)), steps)
    ensures var t := After(Apply(s, ReadFail(id)), steps);
            && id in t.conns
            && !Enabled(t, Publish(id)) && (forall raw :: !Enabled(t, Read(id, raw)))
            && (t.conns[id].reader.Leaving? || t.conns[id].life.Gone?)
  {
    ReachableStep(s, ReadFail(id));
    RunReaderPhase(Apply(s, ReadFail(id)), steps, id);
    LeavingOrGone(After(Apply(s, ReadFail(id)), steps), id);
  }

  lemma LeavingOrGone(t: State, id: ClientId)
    requires Reachable(t) && id in t.conns && ReaderPhase(t.conns[id].reader) >= 2
    ensures t.conns[id].reader.Leaving? || t.conns[id].life.Gone?
  {
    ReachableInv(t);
    assert ConnInv(t.conns[id], id in t.clients, Pending(t, id), t.log);
  }

  lemma {:induction false} RunAppend(s: State, steps: seq<Step>, last: Step)
    requires CanRun(s, steps) && Enabled(After(s, steps), last)
    ensures CanRun(s, steps + [last]) && After(s, steps + [last]) == Apply(After(s, steps), last)
    decreases |steps|
  {
    if steps == [] {
      assert [last][1..] == [] && steps + [last] == [last];
    } else {
      assert (steps + [last])[1..] == steps[1..] + [last];
      RunAppend(Apply(s, steps[0]), steps[1..], last);
    }
  }

  lemma ReachableStep(s: State, step: Step)
    requires Reachable(s) && Enabled(s, step)
    ensures Reachable(Apply(s, step))
  {
    var steps :| CanRun(Init(), steps) && After(Init(), steps) == s;
    RunAppend(Init(), steps, step);
  }

  // ------------------------------------------------------------------ delivery

  /** First position of the broadcast log that a client does not get (yet). */
  function End(s: State, id: ClientId): int
    requires id in s.conns && !s.conns[id].life.Newcomer?
  {
    match s.conns[id].life
    case Member(_) => |s.log| - (if Pending(s, id) then 1 else 0)
    case Gone(_, until) => until
  }

  /** Everything ever enqueued for a client is one contiguous slice of the hub's
      broadcast sequence, from its registration to its removal (or to now); and the
      peer shows a prefix of that slice, the rest being in the writer's hand, in the
      channel, or taken down by a failed write. */
  lemma ContiguousDelivery(s: State, id: ClientId)
    requires Reachable(s) && id in s.conns
    ensures s.conns[id].life.Newcomer? ==> s.conns[id].enqueued == []
    ensures !s.conns[id].life.Newcomer? ==>
              var c := s.conns[id];
              && 0 <= c.life.from <= End(s, id) <= |s.log|
              && c.enqueued == s.log[c.life.from..End(s, id)]
              && c.enqueued == PeerView(c.wire) + c.lost + InHand(c.writer) + c.send.buf
              && PeerView(c.wire) <= s.log[c.life.from..]
  {
    ReachableInv(s);
    DeliverySlice(s.conns[id], id in s.clients, Pending(s, id), s.log);
  }

  lemma DeliverySlice(c: Conn, member: bool, pending: bool, log: seq<Bytes>)
    requires Membership(c, member, pending, log) && Flow(c)
    ensures !c.life.Newcomer? ==>
              var end := if c.life.Gone? then c.life.until else |log| - (if pending then 1 else 0);
              && 0 <= c.life.from <= end <= |log| && c.enqueued == log[c.life.from..end]
              && PeerView(c.wire) <= log[c.life.from..]
  {
    if !c.life.Newcomer? {
      var end := if c.life.Gone? then c.life.until else |log| - (if pending then 1 else 0);
      assert log[c.life.from..][..end - c.life.from] == c.enqueued;
    }
  }

  /** Two peers that both show the k-th broadcast show the same message for it, each
      at its distance from that peer's registration; so they agree on the order of
      everything both got. */
  lemma PeersAgree(s: State, a: ClientId, b: ClientId, k: nat)
    requires Reachable(s) && a in s.conns && b in s.conns
    requires !s.conns[a].life.Newcomer? && !s.conns[b].life.Newcomer?
    requires s.conns[a].life.from <= k < s.conns[a].life.from + |PeerView(s.conns[a].wire)|
    requires s.conns[b].life.from <= k < s.conns[b].life.from + |PeerView(s.conns[b].wire)|
    ensures k < |s.log|
    ensures PeerView(s.conns[a].wire)[k - s.conns[a].life.from]
         == PeerView(s.conns[b].wire)[k - s.conns[b].life.from]
         == s.log[k]
  {
    ContiguousDelivery(s, a);
    ContiguousDelivery(s, b);
  }

  // ------------------------------------------------------------------- channels

  /** No interleaving sends on a closed channel or closes one twice, and a client is
      in the hub's set exactly while it is registered and its channel is open. */
  lemma NoPanicCloseOnce(s: State)
    requires Reachable(s)
    ensures !s.panicked && s.clients <= s.conns.Keys
    ensures forall id :: id in s.conns ==>
              && s.conns[id].closes <= 1
              && (s.conns[id].closes == 1 <==> s.conns[id].send.closed)
              && (id in s.clients <==> s.conns[id].life.Member?)
              && (id in s.clients ==> !s.conns[id].send.closed)
  {
    ReachableInv(s);
  }

  /** Whatever the hub does after `n := len(c.send)`, each of the n receives finds a
      message: the loop never blocks and never reads a closed channel's zero value. */
  lemma DrainNeverBlocks(s: State, id: ClientId)
    requires Reachable(s) && id in s.conns
    requires s.conns[id].writer.Draining? && s.conns[id].writer.left > 0
    ensures s.conns[id].send.buf != [] && Enabled(s, Drain(id))
    ensures Apply(s, Drain(id)).conns[id].writer.batch
         == s.conns[id].writer.batch + [s.conns[id].send.buf[0]]
  {
    ReachableInv(s);
    assert ConnInv(s.conns[id], id in s.clients, Pending(s, id), s.log);
  }

  /** The writer holds or is owed exactly these messages. */
  predicate Owes(c: Conn, whole: seq<Bytes>) {
    && c.writer.Draining? && c.writer.left <= |c.send.buf|
    && c.writer.batch + c.send.buf[..c.writer.left] == whole
  }

  lemma DrainOwes(c: Conn, whole: seq<Bytes>)
    requires Owes(c, whole) && c.writer.left > 0
    ensures Owes(DoDrain(c), whole)
  {
    var rest := c.send.buf[1..];
    assert c.send.buf[..c.writer.left] == [c.send.buf[0]] + rest[..c.writer.left - 1];
  }

  lemma StepOwes(s: State, step: Step, id: ClientId, whole: seq<Bytes>)
    requires Sane(s, id) && Enabled(s, step) && Owes(s.conns[id], whole)
    requires !(step.Flush? && step.id == id)
    ensures id in Apply(s, step).conns && Owes(Apply(s, step).conns[id], whole)
  {
    if step.EndRound? || step.id != id {
      OtherClientsKept(s, step, id);
    } else if step.Drain? {
      DrainOwes(s.conns[id], whole);
    } else if step.Offer? {
      var c, d := s.conns[id], Apply(s, step).conns[id];
      assert d.send.buf[..c.writer.left] == c.send.buf[..c.writer.left];
    }
  }

  lemma {:induction false} RunOwes(s: State, steps: seq<Step>, id: ClientId, whole: seq<Bytes>)
    requires Inv(s) && CanRun(s, steps) && id in s.conns && Owes(s.conns[id], whole)
    requires forall i :: 0 <= i < |steps| ==> !(steps[i].Flush? && steps[i].id == id)
    ensures id in After(s, steps).conns && Owes(After(s, steps).conns[id], whole)
    decreases |steps|
  {
    if steps != [] {
      StepKeeps(s, steps[0]);
      InvSane(s, id);
      StepOwes(s, steps[0], id, whole);
      RunOwes(Apply(s, steps[0]), steps[1..], id, whole);
    }
  }

  /** The frame begun with a message ends up with that message and exactly what was
      buffered when `len(c.send)` was read, whatever happens before it is flushed. */
  lemma DrainTakesBuffered(s: State, id: ClientId, steps: seq<Step>)
    requires Reachable(s) && Enabled(s, ReadLen(id))
    requires CanRun(Apply(s, ReadLen(id)), steps)
    requires forall i :: 0 <= i < |steps| ==> !(steps[i].Flush? && steps[i].id == id)
    ensures var t := After(Apply(s, ReadLen(id)), steps);
            && id in t.conns && t.conns[id].writer.Draining?
            && (t.conns[id].writer.left == 0 ==>
                  t.conns[id].writer.batch == [s.conns[id].writer.message] + s.conns[id].send.buf)
  {
    LenOwes(s, id);
    ReachableStep(s, ReadLen(id));
    OwesInRun(Apply(s, ReadLen(id)), steps, id, [s.conns[id].writer.message] + s.conns[id].send.buf);
  }

  lemma LenOwes(s: State, id: ClientId)
    requires Enabled(s, ReadLen(id))
    ensures Owes(Apply(s, ReadLen(id)).conns[id], [s.conns[id].writer.message] + s.conns[id].send.buf)
  {
    var d := Apply(s, ReadLen(id)).conns[id];
    assert d.send.buf[..|d.send.buf|] == d.send.buf;
  }

  lemma OwesInRun(s: State, steps: seq<Step>, id: ClientId, whole: seq<Bytes>)
    requires Reachable(s) && CanRun(s, steps) && id in s.conns && Owes(s.conns[id], whole)
    requires forall i :: 0 <= i < |steps| ==> !(steps[i].Flush? && steps[i].id == id)
    ensures id in After(s, steps).conns && After(s, steps).conns[id].writer.Draining?
    ensures After(s, steps).conns[id].writer.left == 0 ==> After(s, steps).conns[id].writer.batch == whole
  {
    ReachableInv(s);
    RunOwes(s, steps, id, whole);
  }

  lemma BatchSplitsBack(c: Conn)
    requires Flow(c) && WriterOk(c) && c.writer.Draining?
    ensures Split(NEWLINE, Join(NEWLINE, c.writer.batch)) == c.writer.batch
  {
    BatchOk(c);
    FrameOfBatch(c.writer.batch);
  }

  lemma ReachableBatch(t: State, id: ClientId)
    requires Reachable(t) && id in t.conns && t.conns[id].writer.Draining?
    ensures Split(NEWLINE, Join(NEWLINE, t.conns[id].writer.batch)) == t.conns[id].writer.batch
  {
    ReachableInv(t);
    assert ConnInv(t.conns[id], id in t.clients, Pending(t, id), t.log);
    BatchSplitsBack(t.conns[id]);
  }

  /** End to end for one frame: whatever happens between reading the length and a flush
      that succeeds, the flush puts one frame on the wire, and the browser's split of it
      is the received message and what was buffered when the length was read. */
  lemma FrameSplitsBack(s: State, id: ClientId, steps: seq<Step>)
    requires Reachable(s) && Enabled(s, ReadLen(id))
    requires CanRun(Apply(s, ReadLen(id)), steps)
    requires forall i :: 0 <= i < |steps| ==> !(steps[i].Flush? && steps[i].id == id)
    requires Enabled(After(Apply(s, ReadLen(id)), steps), Flush(id, true))
    ensures var t := After(Apply(s, ReadLen(id)), steps);
            var wire := Apply(t, Flush(id, true)).conns[id].wire;
            && |wire| == |t.conns[id].wire| + 1 && wire[..|t.conns[id].wire|] == t.conns[id].wire
            && wire[|wire| - 1].Data?
            && Split(NEWLINE, wire[|wire| - 1].payload) == [s.conns[id].writer.message] + s.conns[id].send.buf
  {
    DrainTakesBuffered(s, id, steps);
    ReachableStep(s, ReadLen(id));
    RunReaderPhase(Apply(s, ReadLen(id)), steps, id);
    ReachableBatch(After(Apply(s, ReadLen(id)), steps), id);
  }

  lemma {:induction false} PeerViewPrefix(wire: seq<Frame>, k: nat)
    requires k <= |wire|
    ensures PeerView(wire[..k]) <= PeerView(wire)
    decreases |wire|
  {
    if k == |wire| {
      assert wire[..k] == wire;
    } else {
      PeerViewPrefix(wire[..|wire| - 1], k);
      assert wire[..|wire| - 1][..k] == wire[..k];
    }
  }

  lemma FrameInView(wire: seq<Frame>, i: nat)
    requires i < |wire| && wire[i].Data?
    ensures PeerView(wire[..i]) + Split(NEWLINE, wire[i].payload) <= PeerView(wire)
  {
    PeerViewPrefix(wire, i + 1);
    assert wire[..i + 1][..i] == wire[..i];
  }

  lemma SliceOfPrefix(before: seq<Bytes>, batch: seq<Bytes>, log: seq<Bytes>, from: nat)
    requires from <= |log| && before + batch <= log[from..]
    ensures from + |before| + |batch| <= |log|
    ensures batch == log[from + |before|..from + |before| + |batch|]
  {
    assert batch == (before + batch)[|before|..];
    assert log[from..][|before|..|before| + |batch|] == log[from + |before|..from + |before| + |batch|];
  }

  lemma FramesOk(s: State, id: ClientId)
    requires Reachable(s) && id in s.conns
    ensures forall i :: 0 <= i < |s.conns[id].wire| && s.conns[id].wire[i].Data? ==> FrameOk(s.conns[id].wire[i].payload)
    ensures s.conns[id].wire != [] ==> !s.conns[id].life.Newcomer?
  {
    ReachableInv(s);
    assert ConnInv(s.conns[id], id in s.clients, Pending(s, id), s.log);
  }

  /** Every data frame ever written is split by the browser into at most 257 messages,
      which are consecutive broadcasts: those that follow what the earlier frames on that
      wire showed. It is at most 131840 bytes long. */
  lemma FrameBounds(s: State, id: ClientId, i: nat)
    requires Reachable(s) && id in s.conns
    requires i < |s.conns[id].wire| && s.conns[id].wire[i].Data?
    ensures !s.conns[id].life.Newcomer?
    ensures var c := s.conns[id];
            var frame := c.wire[i].payload;
            var n := |Split(NEWLINE, frame)|;
            var at := c.life.from + |PeerView(c.wire[..i])|;
            && n <= 257 && |frame| <= 131840
            && at + n <= |s.log| && Split(NEWLINE, frame) == s.log[at..at + n]
  {
    var c := s.conns[id];
    FramesOk(s, id);
    ContiguousDelivery(s, id);
    FrameInView(c.wire, i);
    SliceOfPrefix(PeerView(c.wire[..i]), Split(NEWLINE, c.wire[i].payload), s.log, c.life.from);
  }

  /** Pings and data frames on a wire. */
  datatype Tally = Tally(pings: nat, frames: nat)

  function OnWire(wire: seq<Frame>): Tally {
    if wire == [] then Tally(0, 0)
    else
      var t, f := OnWire(wire[..|wire| - 1]), wire[|wire| - 1];
      Tally(t.pings + if f.Ping? then 1 else 0, t.frames + if f.Data? then 1 else 0)
  }

  /** Ticks and flushes of client id's writer that succeed in a run. */
  function Written(steps: seq<Step>, id: ClientId): Tally {
    if steps == [] then Tally(0, 0)
    else
      var t, step := Written(steps[1..], id), steps[0];
      Tally(t.pings + (if step.Tick? && step.ok && step.id == id then 1 else 0),
            t.frames + (if step.Flush? && step.ok && step.id == id then 1 else 0))
  }

  lemma OwnFrames(c: Conn, step: Step)
    requires WriterStep(step) && WriterReady(c, step)
    ensures var was, now := OnWire(c.wire), OnWire(WriterResult(c, step).wire);
            && now.pings == was.pings + (if step.Tick? && step.ok then 1 else 0)
            && now.frames == was.frames + (if step.Flush? && step.ok then 1 else 0)
  {
    var d := WriterResult(c, step);
    assert d.wire != c.wire ==> |d.wire| == |c.wire| + 1 && d.wire[..|c.wire|] == c.wire;
  }

  lemma StepFrames(s: State, step: Step, id: ClientId)
    requires Enabled(s, step) && id in s.conns
    ensures id in Apply(s, step).conns
    ensures var was, now := OnWire(s.conns[id].wire), OnWire(Apply(s, step).conns[id].wire);
            && now.pings == was.pings + (if step.Tick? && step.ok && step.id == id then 1 else 0)
            && now.frames == was.frames + (if step.Flush? && step.ok && step.id == id then 1 else 0)
  {
    if step.EndRound? || step.id != id {
      OtherClientsKept(s, step, id);
    } else if WriterStep(step) {
      OwnFrames(s.conns[id], step);
    } else {
      assert Apply(s, step).conns[id].wire == s.conns[id].wire;
    }
  }

  /** Every tick that does not fail puts one ping on the wire, every flush one data
      frame, and nothing else does. */
  lemma {:induction false} FramesMatchWrites(s: State, steps: seq<Step>, id: ClientId)
    requires CanRun(s, steps) && id in s.conns
    ensures id in After(s, steps).conns
    ensures OnWire(After(s, steps).conns[id].wire).pings == OnWire(s.conns[id].wire).pings + Written(steps, id).pings
    ensures OnWire(After(s, steps).conns[id].wire).frames == OnWire(s.conns[id].wire).frames + Written(steps, id).frames
    decreases |steps|
  {
    if steps != [] {
      StepFrames(s, steps[0], id);
      FramesMatchWrites(Apply(s, steps[0]), steps[1..], id);
    }
  }

  // ---------------------------------------------------------------- Close frame

  function CountClose(wire: seq<Frame>): nat {
    if wire == [] then 0
    else CountClose(wire[..|wire| - 1]) + if wire[|wire| - 1].Close? then 1 else 0
  }

  lemma {:induction false} NoCloseCount(wire: seq<Frame>)
    requires forall i :: 0 <= i < |wire| ==> !wire[i].Close?
    ensures CountClose(wire) == 0
  {
    if wire != [] {
      NoCloseCount(wire[..|wire| - 1]);
    }
  }

  /** At most one Close frame is ever written, nothing follows it, and it comes after
      every message ever enqueued. A writer that ended without a write error has
      written it. */
  lemma CloseFrameLast(s: State, id: ClientId)
    requires Reachable(s) && id in s.conns
    ensures var c := s.conns[id];
            && CountClose(c.wire) <= 1
            && (forall i :: 0 <= i < |c.wire| && c.wire[i].Close? ==> i == |c.wire| - 1)
            && (CountClose(c.wire) == 1 ==> PeerView(c.wire) == c.enqueued && c.life.Gone?)
            && (c.writer.WriterEnded? && !c.failed ==> CountClose(c.wire) == 1)
  {
    ReachableInv(s);
    var c := s.conns[id];
    assert ConnInv(c, id in s.clients, Pending(s, id), s.log);
    if c.wire != [] {
      NoCloseCount(c.wire[..|c.wire| - 1]);
    }
  }

  /** Steps of the writer goroutine of one client, its start included and pings
      excluded. */
  predicate Works(step: Step, id: ClientId) {
    (step.SpawnWriter? || (WriterStep(step) && !step.Tick?)) && step.id == id
  }

  function CountWork(steps: seq<Step>, id: ClientId): nat {
    if steps == [] then 0
    else (if Works(steps[0], id) then 1 else 0) + CountWork(steps[1..], id)
  }

  /** How much is left to do for the writer of a closed channel. */
  function Rank(c: Conn): nat {
    match c.writer
    case NotRunning => 5 * |c.send.buf| + 4
    case Waiting => 5 * |c.send.buf| + 3
    case Taken(_) => 5 * |c.send.buf| + 7
    case Opened(_) => 5 * |c.send.buf| + 6
    case Draining(_, _) => 5 * |c.send.buf| + 5
    case SawClose => 2
    case Exiting => 1
    case WriterEnded => 0
  }

  /** The part of the invariant that the step-by-step facts below need. */
  predicate Sane(s: State, id: ClientId) {
    && id in s.conns
    && (s.hub.Round? ==> s.hub.todo <= s.clients)
    && var c := s.conns[id];
       && (id in s.clients ==> c.life.Member? && !c.send.closed)
       && (c.send.closed ==> c.life.Gone?)
       && (c.stage.Registering? ==> c.life.Newcomer?)
       && (c.writer.NotRunning? <==> c.stage.Registering? || c.stage.SpawningWriter?)
       && (c.reader.Unborn? <==> !c.stage.Served?)
       && (c.writer.Draining? ==> c.writer.left <= |c.send.buf|)
  }

  lemma InvSane(s: State, id: ClientId)
    requires Inv(s) && id in s.conns
    ensures Sane(s, id)
  {
    assert ConnInv(s.conns[id], id in s.clients, Pending(s, id), s.log);
  }

  lemma OtherClientsKept(s: State, step: Step, id: ClientId)
    requires Enabled(s, step) && id in s.conns
    requires step.EndRound? || step.id != id
    ensures id in Apply(s, step).conns && Apply(s, step).conns[id] == s.conns[id]
  {
  }

  lemma RankFalls(s: State, step: Step, id: ClientId)
    requires Sane(s, id) && Enabled(s, step) && s.conns[id].send.closed
    ensures id in Apply(s, step).conns
    ensures var c, d := s.conns[id], Apply(s, step).conns[id];
            d.send.closed && Rank(d) + (if Works(step, id) then 1 else 0) <= Rank(c)
  {
    if step.EndRound? || step.id != id {
      OtherClientsKept(s, step, id);
    } else if LocalStep(step) {
    } else if WriterStep(step) {
      WriterRankFalls(s.conns[id], step);
    } else {
      assert step.Publish? || step.Leave?;
    }
  }

  lemma WriterRankFalls(c: Conn, step: Step)
    requires WriterStep(step) && WriterReady(c, step)
    requires c.send.closed && (c.writer.Draining? ==> c.writer.left <= |c.send.buf|)
    ensures var d := WriterResult(c, step);
            d.send.closed && Rank(d) + (if step.Tick? then 0 else 1) <= Rank(c)
  {
  }

  lemma {:induction false} WorkBounded(s: State, steps: seq<Step>, id: ClientId)
    requires Inv(s) && CanRun(s, steps) && id in s.conns && s.conns[id].send.closed
    ensures CountWork(steps, id) <= Rank(s.conns[id])
    decreases |steps|
  {
    if steps != [] {
      StepKeeps(s, steps[0]);
      InvSane(s, id);
      RankFalls(s, steps[0], id);
      WorkBounded(Apply(s, steps[0]), steps[1..], id);
    }
  }

  /** The next step the writer can take on its own. */
  function NextWork(c: Conn, id: ClientId): Step
    requires c.stage != Registering && !c.writer.WriterEnded?
  {
    match c.writer
    case NotRunning => SpawnWriter(id)
    case Waiting => Take(id)
    case Taken(_) => OpenFrame(id, true)
    case Opened(_) => ReadLen(id)
    case Draining(_, left) => if left > 0 then Drain(id) else Flush(id, c.connOpen)
    case SawClose => WriteClose(id, c.connOpen)
    case Exiting => StopWriter(id)
  }

  /** Once the hub has closed a client's channel its writer is never stuck, and from
      there on it takes fewer than 1288 steps of its own in any continuation, pings
      aside. */
  lemma WriterEnds(s: State, id: ClientId, steps: seq<Step>)
    requires Reachable(s) && id in s.conns && s.conns[id].send.closed
    requires CanRun(s, steps)
    ensures CountWork(steps, id) < 1288
    ensures s.conns[id].stage != Registering
    ensures !s.conns[id].writer.WriterEnded? ==>
              var next := NextWork(s.conns[id], id);
              Enabled(s, next) && Works(next, id)
  {
    ReachableInv(s);
    assert ConnInv(s.conns[id], id in s.clients, Pending(s, id), s.log);
    WorkBounded(s, steps, id);
  }

  // ------------------------------------------------- a client nobody reads for

  predicate Stopped(c: Conn) {
    c.writer.Exiting? || c.writer.WriterEnded?
  }

  function OffersTo(steps: seq<Step>, id: ClientId): nat {
    if steps == [] then 0 else (if steps[0] == Offer(id) then 1 else 0) + OffersTo(steps[1..], id)
  }

  /** Offers the hub can still make to a client whose channel is not drained. */
  function Room(s: State, id: ClientId): int
    requires id in s.conns
  {
    if id in s.clients then BUF_SIZE + 1 - |s.conns[id].send.buf| else 0
  }

  /** From c to d messages were only added to the channel, and nothing was written. */
  predicate OnlyFilled(c: Conn, d: Conn) {
    && Stopped(d) && d.wire == c.wire
    && c.send.buf <= d.send.buf && d.enqueued == c.enqueued + d.send.buf[|c.send.buf|..]
  }

  lemma OnlyFilledTransitive(c: Conn, d: Conn, e: Conn)
    requires OnlyFilled(c, d) && OnlyFilled(d, e)
    ensures OnlyFilled(c, e)
  {
    assert e.send.buf[|c.send.buf|..] == d.send.buf[|c.send.buf|..] + e.send.buf[|d.send.buf|..];
  }

  lemma OwnStepStopped(c: Conn, step: Step)
    requires Stopped(c) && (c.writer.NotRunning? <==> c.stage.Registering? || c.stage.SpawningWriter?)
    ensures LocalStep(step) && LocalReady(c, step) ==>
              OnlyFilled(c, LocalResult(c, step)) && LocalResult(c, step).send == c.send
    ensures WriterStep(step) && WriterReady(c, step) ==>
              OnlyFilled(c, WriterResult(c, step)) && WriterResult(c, step).send == c.send
  {
  }

  lemma OfferStopped(s: State, id: ClientId)
    requires Sane(s, id) && Enabled(s, Offer(id)) && Stopped(s.conns[id]) && |s.conns[id].send.buf| <= BUF_SIZE
    ensures var t := Apply(s, Offer(id));
            id in t.conns && OnlyFilled(s.conns[id], t.conns[id]) && 1 + Room(t, id) <= Room(s, id)
  {
  }

  lemma StepStopped(s: State, step: Step, id: ClientId)
    requires Sane(s, id) && Enabled(s, step) && Stopped(s.conns[id]) && |s.conns[id].send.buf| <= BUF_SIZE
    ensures var t := Apply(s, step);
            && id in t.conns && OnlyFilled(s.conns[id], t.conns[id])
            && (if step == Offer(id) then 1 else 0) + Room(t, id) <= Room(s, id)
  {
    if step == Offer(id) {
      OfferStopped(s, id);
    } else if step.EndRound? || step.id != id {
      OtherClientsKept(s, step, id);
    } else if LocalStep(step) || WriterStep(step) {
      OwnStepStopped(s.conns[id], step);
    }
  }

  lemma BufferBounded(s: State, id: ClientId)
    requires Reachable(s) && id in s.conns
    ensures |s.conns[id].send.buf| <= BUF_SIZE
  {
    ReachableInv(s);
    assert ConnInv(s.conns[id], id in s.clients, Pending(s, id), s.log);
  }

  lemma {:induction false} RunStopped(s: State, steps: seq<Step>, id: ClientId)
    requires Reachable(s) && CanRun(s, steps) && id in s.conns && Stopped(s.conns[id])
    ensures var t := After(s, steps);
            && Reachable(t) && id in t.conns && OnlyFilled(s.conns[id], t.conns[id])
            && OffersTo(steps, id) + Room(t, id) <= Room(s, id)
    decreases |steps|
  {
    if steps != [] {
      var t := Apply(s, steps[0]);
      ReachableSane(s, id);
      BufferBounded(s, id);
      StepStopped(s, steps[0], id);
      ReachableStep(s, steps[0]);
      RunStopped(t, steps[1..], id);
      OnlyFilledTransitive(s.conns[id], t.conns[id], After(s, steps).conns[id]);
    }
  }

  /** A client whose writer has ended costs the hub little: over any continuation nothing
      more is written to its peer, and it is sent what still fits its buffer and no more.
      One further offer removes it; if it was no longer a member it gets none. */
  lemma StoppedClientRemoved(s: State, steps: seq<Step>, id: ClientId)
    requires Reachable(s) && CanRun(s, steps) && id in s.conns && Stopped(s.conns[id])
    ensures id in After(s, steps).conns
    ensures var c, d := s.conns[id], After(s, steps).conns[id];
            && d.wire == c.wire && c.send.buf <= d.send.buf
            && d.enqueued == c.enqueued + d.send.buf[|c.send.buf|..]
            && |d.enqueued| - |c.enqueued| <= 256 - |c.send.buf|
            && OffersTo(steps, id) <= 257 - |c.send.buf|
            && (OffersTo(steps, id) == 257 - |c.send.buf| ==> id !in After(s, steps).clients)
            && (id !in s.clients ==> OffersTo(steps, id) == 0)
  {
    RunStopped(s, steps, id);
    BufferBounded(s, id);
    BufferBounded(After(s, steps), id);
  }

  // ------------------------------------------------------------ broadcast rounds

  /** The client got the message as its latest one, or was closed and removed. */
  predicate Settled(s: State, id: ClientId, m: Bytes) {
    && id in s.conns
    && var c := s.conns[id];
       if id in s.clients then c.enqueued != [] && c.enqueued[|c.enqueued| - 1] == m
       else c.life.Gone? && c.send.closed
  }

  function CountOffers(steps: seq<Step>): nat {
    if steps == [] then 0 else (if steps[0].Offer? then 1 else 0) + CountOffers(steps[1..])
  }

  ghost predicate RoundProgress(s: State, t: State, offers: nat)
    requires s.hub.Round?
  {
    && t.hub.Round? && t.hub.message == s.hub.message && t.log == s.log
    && t.hub.todo <= s.hub.todo && |t.hub.todo| + offers == |s.hub.todo|
    && t.clients <= s.clients
    && forall id :: id in s.hub.todo && id !in t.hub.todo ==> Settled(t, id, s.hub.message)
  }

  lemma OfferSettles(s: State, id: ClientId)
    requires Sane(s, id) && Enabled(s, Offer(id))
    ensures RoundProgress(s, Apply(s, Offer(id)), 1)
    ensures forall x :: Settled(s, x, s.hub.message) && x !in s.hub.todo
                        ==> Settled(Apply(s, Offer(id)), x, s.hub.message)
  {
    var t := Apply(s, Offer(id));
    assert s.hub.todo == t.hub.todo + {id};
    forall x | Settled(s, x, s.hub.message) && x !in s.hub.todo
      ensures Settled(t, x, s.hub.message)
    {
      OtherClientsKept(s, Offer(id), x);
    }
  }

  /** While a round lasts, no step but the hub's own changes a client's membership
      or what was enqueued for it. */
  lemma QuietStep(s: State, step: Step)
    requires Enabled(s, step) && s.hub.Round? && !step.EndRound? && !step.Offer?
    ensures var t := Apply(s, step);
            && t.hub == s.hub && t.clients == s.clients && t.log == s.log
            && forall id :: id in s.conns ==>
                 && id in t.conns && t.conns[id].enqueued == s.conns[id].enqueued
                 && t.conns[id].life == s.conns[id].life
                 && t.conns[id].send.closed == s.conns[id].send.closed
  {
    var t := Apply(s, step);
    forall id | id in s.conns
      ensures && id in t.conns && t.conns[id].enqueued == s.conns[id].enqueued
              && t.conns[id].life == s.conns[id].life
              && t.conns[id].send.closed == s.conns[id].send.closed
    {
      if step.id != id {
        OtherClientsKept(s, step, id);
      }
    }
  }

  lemma RoundStep(s: State, step: Step)
    requires Inv(s) && Enabled(s, step) && s.hub.Round? && !step.EndRound?
    ensures RoundProgress(s, Apply(s, step), if step.Offer? then 1 else 0)
    ensures forall id :: Settled(s, id, s.hub.message) && id !in s.hub.todo
                         ==> Settled(Apply(s, step), id, s.hub.message)
  {
    if step.Offer? {
      InvSane(s, step.id);
      OfferSettles(s, step.id);
    } else {
      QuietStep(s, step);
    }
  }

  lemma {:induction false} RoundRun(s: State, steps: seq<Step>)
    requires Inv(s) && s.hub.Round? && CanRun(s, steps)
    requires forall i :: 0 <= i < |steps| ==> !steps[i].EndRound?
    ensures RoundProgress(s, After(s, steps), CountOffers(steps))
    ensures forall id :: Settled(s, id, s.hub.message) && id !in s.hub.todo
                         ==> Settled(After(s, steps), id, s.hub.message)
    decreases |steps|
  {
    if steps != [] {
      StepKeeps(s, steps[0]);
      RoundStep(s, steps[0]);
      RoundRun(Apply(s, steps[0]), steps[1..]);
    }
  }

  lemma RoundEnabled(t: State)
    requires HubInv(t) && t.hub.Round?
    ensures forall x :: x in t.hub.todo ==> Enabled(t, Offer(x))
    ensures t.hub.todo == {} <==> Enabled(t, EndRound)
  {
  }

  /** A broadcast round, however the writers and readers interleave with it, makes
      exactly one offer per client that was registered when it began, can always make
      the next offer or end, and when it ends every one of those clients has the
      message as its latest one or is closed and removed. */
  lemma BroadcastRound(s: State, id: ClientId, steps: seq<Step>)
    requires Reachable(s) && Enabled(s, Publish(id))
    requires CanRun(Apply(s, Publish(id)), steps)
    requires forall i :: 0 <= i < |steps| ==> !steps[i].EndRound?
    ensures var m := s.conns[id].reader.message;
            var t := After(Apply(s, Publish(id)), steps);
            && t.hub.Round? && t.log == s.log + [m] && t.hub.message == m
            && |t.hub.todo| + CountOffers(steps) == |s.clients|
            && (forall x :: x in t.hub.todo ==> Enabled(t, Offer(x)))
            && (t.hub.todo == {} <==> Enabled(t, EndRound))
            && (t.hub.todo == {} ==> forall x :: x in s.clients ==> Settled(t, x, m))
  {
    ReachableInv(s);
    var begun := Apply(s, Publish(id));
    StepKeeps(s, Publish(id));
    FullRound(begun, steps);
  }

  lemma FullRound(begun: State, steps: seq<Step>)
    requires Inv(begun) && begun.hub.Round? && CanRun(begun, steps)
    requires forall i :: 0 <= i < |steps| ==> !steps[i].EndRound?
    ensures var t := After(begun, steps);
            && RoundProgress(begun, t, CountOffers(steps))
            && (forall x :: x in t.hub.todo ==> Enabled(t, Offer(x)))
            && (t.hub.todo == {} <==> Enabled(t, EndRound))
  {
    RunKeeps(begun, steps);
    RoundRun(begun, steps);
    RoundEnabled(After(begun, steps));
  }

  // ----------------------------------------------------- order of map iteration

  function Offers(order: seq<ClientId>): seq<Step> {
    seq(|order|, i requires 0 <= i < |order| => Offer(order[i]))
  }

  /** What a round that no writer interrupts does to one client. */
  function Offered(c: Conn, m: Bytes, at: nat): Conn {
    if |c.send.buf| < BUF_SIZE then Enqueue(c, m) else Shut(c, at)
  }

  /** The result of an uninterrupted round, said without any order. */
  function RoundResult(s: State): State
    requires s.hub.Round? && s.hub.todo <= s.conns.Keys && s.log != []
  {
    var full := set id | id in s.hub.todo && |s.conns[id].send.buf| >= BUF_SIZE;
    s.(hub := Round(s.hub.message, {}),
       clients := s.clients - full,
       conns := map id | id in s.conns ::
         if id in s.hub.todo then Offered(s.conns[id], s.hub.message, |s.log| - 1) else s.conns[id])
  }

  predicate Enumerates(order: seq<ClientId>, todo: set<ClientId>) {
    && (forall i :: 0 <= i < |order| ==> order[i] in todo)
    && (forall id :: id in todo ==> id in order)
    && (forall i, j :: 0 <= i < j < |order| ==> order[i] != order[j])
  }

  lemma OfferResult(s: State, id: ClientId)
    requires Sane(s, id) && HubInv(s) && Enabled(s, Offer(id))
    ensures var t := Apply(s, Offer(id));
            && t.hub == s.hub.(todo := s.hub.todo - {id}) && t.log == s.log && !t.panicked
            && t.conns == s.conns[id := Offered(s.conns[id], s.hub.message, |s.log| - 1)]
            && t.clients == s.clients - (if |s.conns[id].send.buf| < BUF_SIZE then {} else {id})
  {
    OfferCases(s, id);
  }

  lemma OfferTowardsResult(s: State, id: ClientId)
    requires Sane(s, id) && HubInv(s) && Enabled(s, Offer(id))
    ensures var t := Apply(s, Offer(id));
            t.hub.Round? && t.hub.todo <= t.conns.Keys && t.log != [] && RoundResult(t) == RoundResult(s)
  {
    var t := Apply(s, Offer(id));
    OfferResult(s, id);
    assert RoundResult(t).conns == RoundResult(s).conns;
    assert RoundResult(t).clients == RoundResult(s).clients;
  }

  lemma RestEnumerates(order: seq<ClientId>, todo: set<ClientId>)
    requires order != [] && Enumerates(order, todo)
    ensures Enumerates(order[1..], todo - {order[0]})
  {
    forall id | id in todo - {order[0]} ensures id in order[1..] {
      var k :| 0 <= k < |order| && order[k] == id;
      assert order[1..][k - 1] == id;
    }
  }

  /** With no other goroutine in between, a round gives the same result for every
      iteration order of the hub's map. */
  lemma {:induction false} RoundOrderIrrelevant(s: State, order: seq<ClientId>)
    requires Inv(s) && s.hub.Round? && Enumerates(order, s.hub.todo)
    ensures CanRun(s, Offers(order)) && After(s, Offers(order)) == RoundResult(s)
    decreases |order|
  {
    if order == [] {
      EmptyRound(s);
    } else {
      InvSane(s, order[0]);
      StepKeeps(s, Offer(order[0]));
      OfferTowardsResult(s, order[0]);
      RestEnumerates(order, s.hub.todo);
      RoundOrderIrrelevant(Apply(s, Offer(order[0])), order[1..]);
      OffersCons(s, order);
    }
  }

  lemma OffersCons(s: State, order: seq<ClientId>)
    requires order != [] && Enabled(s, Offer(order[0]))
    requires CanRun(Apply(s, Offer(order[0])), Offers(order[1..]))
    ensures CanRun(s, Offers(order))
    ensures After(s, Offers(order)) == After(Apply(s, Offer(order[0])), Offers(order[1..]))
  {
    assert Offers(order)[1..] == Offers(order[1..]) && Offers(order)[0] == Offer(order[0]);
  }

  lemma EmptyRound(s: State)
    requires HubInv(s) && s.hub.Round? && s.hub.todo == {}
    ensures RoundResult(s) == s
  {
    assert RoundResult(s).conns == s.conns;
    assert RoundResult(s).clients == s.clients;
  }

  // -------------------------------------------------------------- over whole runs

  /** What is on a wire, in the log, or known about a removal is never taken back. */
  predicate Grows(c: Conn, d: Conn) {
    && c.wire <= d.wire && c.enqueued <= d.enqueued
    && (c.send.closed ==> d.send.closed && d.enqueued == c.enqueued)
    && (c.life.Gone? ==> d.life == c.life)
    && (c.life.Member? ==> !d.life.Newcomer? && d.life.from == c.life.from)
    && (!c.connOpen ==> !d.connOpen && d.wire == c.wire)
  }

  lemma OwnStepGrows(c: Conn, step: Step)
    ensures LocalStep(step) && LocalReady(c, step) ==> Grows(c, LocalResult(c, step))
    ensures WriterStep(step) && WriterReady(c, step) ==> Grows(c, WriterResult(c, step))
  {
  }

  lemma StepGrows(s: State, step: Step, id: ClientId)
    requires Sane(s, id) && Enabled(s, step)
    ensures var t := Apply(s, step);
            s.log <= t.log && id in t.conns && Grows(s.conns[id], t.conns[id])
  {
    if step.EndRound? || step.id != id {
      OtherClientsKept(s, step, id);
    } else if LocalStep(step) || WriterStep(step) {
      OwnStepGrows(s.conns[id], step);
    }
  }

  /** A client never rejoins, its registration point never moves, nothing is enqueued
      after its channel is closed, nothing is written after its connection is closed,
      and wire and log only ever grow. */
  lemma {:induction false} RunGrows(s: State, steps: seq<Step>, id: ClientId)
    requires Inv(s) && CanRun(s, steps) && id in s.conns
    ensures var t := After(s, steps);
            s.log <= t.log && id in t.conns && Grows(s.conns[id], t.conns[id])
    decreases |steps|
  {
    if steps != [] {
      StepKeeps(s, steps[0]);
      InvSane(s, id);
      StepGrows(s, steps[0], id);
      RunGrows(Apply(s, steps[0]), steps[1..], id);
    }
  }
}
