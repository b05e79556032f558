/** The chat server as a step machine: one hub goroutine and, for every client,
    the ServeWs call, a reader goroutine and a writer goroutine. Each Step is one
    atomic action; a run is any sequence of enabled steps, so every interleaving of
    the goroutines is a run. */
module Chat {
  import opened Text

  const MAX_MESSAGE_SIZE := 512
  const BUF_SIZE := 256

  /** A Go channel of byte strings with BUF_SIZE slots. */
  datatype Chan = Chan(buf: seq<Bytes>, closed: bool)

  /** A complete websocket message on the wire to one peer. */
  datatype Frame = Data(payload: Bytes) | Ping | Close

  /** Where the ServeWs call of a client stands. */
  datatype Stage = Registering | SpawningWriter | SpawningReader | Served

  /** Where readPump stands. */
  datatype Reader = Unborn | Reading | Publishing(message: Bytes) | Leaving | HangingUp | ReaderEnded

  /** Where writePump stands. `Taken` holds the message received by the select,
      `Opened` has written it to a fresh frame, and `Draining` still owes `left`
      of the n receives it counted. */
  datatype Writer =
    | NotRunning
    | Waiting
    | Taken(message: Bytes)
    | Opened(message: Bytes)
    | Draining(batch: seq<Bytes>, left: nat)
    | SawClose
    | Exiting
    | WriterEnded

  /** Membership history: positions in the hub's broadcast log. */
  datatype Life = Newcomer | Member(from: nat) | Gone(from: nat, until: nat)

  /** One client: its channel, its goroutines and its connection. The last five
      fields are history: every message sent into the channel, the membership, how
      often the channel was closed, whether a write failed, and the messages that
      failing write took with it. */
  datatype Conn = Conn(
    send: Chan,
    stage: Stage,
    reader: Reader,
    writer: Writer,
    connOpen: bool,
    wire: seq<Frame>,
    enqueued: seq<Bytes>,
    life: Life,
    closes: nat,
    failed: bool,
    lost: seq<Bytes>)

  datatype Hub = Idle | Round(message: Bytes, todo: set<ClientId>)

  type ClientId = nat

  /** `log` is history: every message the hub has accepted for broadcast. */
  datatype State = State(
    hub: Hub,
    clients: set<ClientId>,
    conns: map<ClientId, Conn>,
    log: seq<Bytes>,
    panicked: bool)

  datatype Step =
    | Upgrade(id: ClientId)
    | Register(id: ClientId)
    | SpawnWriter(id: ClientId)
    | SpawnReader(id: ClientId)
    | Read(id: ClientId, raw: Bytes)
    | ReadFail(id: ClientId)
    | Publish(id: ClientId)
    | Leave(id: ClientId)
    | HangUp(id: ClientId)
    | Offer(id: ClientId)
    | EndRound
    | Take(id: ClientId)
    | OpenFrame(id: ClientId, ok: bool)
    | ReadLen(id: ClientId)
    | Drain(id: ClientId)
    | Flush(id: ClientId, ok: bool)
    | WriteClose(id: ClientId, ok: bool)
    | Tick(id: ClientId, ok: bool)
    | StopWriter(id: ClientId)

  function Spaced(raw: Bytes): Bytes {
    seq(|raw|, i requires 0 <= i < |raw| => if raw[i] == NEWLINE then SPACE else raw[i])
  }

  /** The reader's clean-up: newlines become spaces, then white space is trimmed. */
  function Clean(raw: Bytes): Bytes {
    TrimSpace(Spaced(raw))
  }

  function NewConn(): Conn {
    Conn(Chan([], false), Registering, Unborn, NotRunning, true, [], [], Newcomer, 0, false, [])
  }

  function Init(): State {
    State(Idle, {}, map[], [], false)
  }

  /** A receive proceeds when something is buffered or the channel is closed. */
  predicate CanReceive(ch: Chan) {
    ch.buf != [] || ch.closed
  }

  /** Steps of ServeWs, readPump and writePump that touch their own client only. */
  predicate LocalStep(step: Step) {
    step.SpawnWriter? || step.SpawnReader? || step.Read? || step.ReadFail? || step.HangUp?
  }

  predicate WriterStep(step: Step) {
    || step.Take? || step.OpenFrame? || step.ReadLen? || step.Drain?
    || step.Flush? || step.WriteClose? || step.Tick? || step.StopWriter?
  }

  predicate LocalReady(c: Conn, step: Step)
    requires LocalStep(step)
  {
    match step
    case SpawnWriter(_) => c.stage.SpawningWriter?
    case SpawnReader(_) => c.stage.SpawningReader?
    case Read(_, raw) => c.reader.Reading? && c.connOpen && |raw| <= MAX_MESSAGE_SIZE
    case ReadFail(_) => c.reader.Reading?
    case HangUp(_) => c.reader.HangingUp?
  }

  predicate WriterReady(c: Conn, step: Step)
    requires WriterStep(step)
  {
    match step
    case Take(_) => c.writer.Waiting? && CanReceive(c.send)
    case OpenFrame(_, ok) => c.writer.Taken?
    case ReadLen(_) => c.writer.Opened?
    case Drain(_) => c.writer.Draining? && c.writer.left > 0 && CanReceive(c.send)
    case Flush(_, ok) => c.writer.Draining? && c.writer.left == 0 && (ok ==> c.connOpen)
    case WriteClose(_, ok) => c.writer.SawClose? && (ok ==> c.connOpen)
    case Tick(_, ok) => c.writer.Waiting? && (ok ==> c.connOpen)
    case StopWriter(_) => c.writer.Exiting?
  }

  predicate Enabled(s: State, step: Step) {
    && !s.panicked
    && (step.EndRound? || step.Upgrade? || step.id in s.conns)
    && if LocalStep(step) then LocalReady(s.conns[step.id], step)
       else if WriterStep(step) then WriterReady(s.conns[step.id], step)
       else
         match step
         case Upgrade(id) => id !in s.conns
         case Register(id) => s.hub.Idle? && s.conns[id].stage.Registering?
         case Publish(id) => s.hub.Idle? && s.conns[id].reader.Publishing?
         case Leave(id) => s.hub.Idle? && s.conns[id].reader.Leaving?
         case Offer(id) => s.hub.Round? && id in s.hub.todo
         case EndRound => s.hub.Round? && s.hub.todo == {}
  }

  function LocalResult(c: Conn, step: Step): Conn
    requires LocalStep(step) && LocalReady(c, step)
  {
    match step
    case SpawnWriter(_) => c.(writer := Waiting, stage := SpawningReader)
    case SpawnReader(_) => c.(reader := Reading, stage := Served)
    case Read(_, raw) => c.(reader := Publishing(Clean(raw)))
    case ReadFail(_) => c.(reader := Leaving)
    case HangUp(_) => c.(reader := ReaderEnded, connOpen := false)
  }

  function WriterResult(c: Conn, step: Step): Conn
    requires WriterStep(step) && WriterReady(c, step)
  {
    match step
    case Take(_) => DoTake(c)
    case OpenFrame(_, ok) => DoOpenFrame(c, ok)
    case ReadLen(_) => c.(writer := Draining([c.writer.message], |c.send.buf|))
    case Drain(_) => DoDrain(c)
    case Flush(_, ok) => DoFlush(c, ok)
    case WriteClose(_, ok) => DoWrite(c, Close, Exiting, ok)
    case Tick(_, ok) => DoWrite(c, Ping, Waiting, ok)
    case StopWriter(_) => c.(writer := WriterEnded, connOpen := false)
  }

  function Apply(s: State, step: Step): State
    requires Enabled(s, step)
  {
    if LocalStep(step) then Put(s, step.id, LocalResult(s.conns[step.id], step))
    else if WriterStep(step) then Put(s, step.id, WriterResult(s.conns[step.id], step))
    else
      match step
      case Upgrade(id) => Put(s, id, NewConn())
      case Register(id) => DoRegister(s, id)
      case Publish(id) => DoPublish(s, id)
      case Leave(id) => DoLeave(s, id)
      case Offer(id) => DoOffer(s, id)
      case EndRound => s.(hub := Idle)
  }

  function Put(s: State, id: ClientId, c: Conn): State {
    s.(conns := s.conns[id := c])
  }

  // ----------------------------------------------------- the hub's three cases

  function DoRegister(s: State, id: ClientId): State
    requires id in s.conns
  {
    var c := s.conns[id];
    s.(clients := s.clients + {id},
       conns := s.conns[id := c.(stage := SpawningWriter, life := Member(|s.log|))])
  }

  function DoLeave(s: State, id: ClientId): State
    requires id in s.conns
  {
    var c := s.conns[id].(reader := HangingUp);
    if id !in s.clients then Put(s, id, c)
    else if c.send.closed then s.(panicked := true)
    else s.(clients := s.clients - {id}, conns := s.conns[id := Shut(c, |s.log|)])
  }

  function DoPublish(s: State, id: ClientId): State
    requires id in s.conns && s.conns[id].reader.Publishing?
  {
    var c := s.conns[id];
    s.(hub := Round(c.reader.message, s.clients),
       log := s.log + [c.reader.message],
       conns := s.conns[id := c.(reader := Reading)])
  }

  /** What a select with a send case and a closing default does to an open channel. */
  function Deliver(ch: Chan, m: Bytes): Chan {
    if |ch.buf| < BUF_SIZE then ch.(buf := ch.buf + [m]) else ch.(closed := true)
  }

  /** One turn of the broadcast loop. */
  function DoOffer(s: State, id: ClientId): State
    requires id in s.conns && s.hub.Round?
  {
    var c := s.conns[id];
    var t := s.(hub := s.hub.(todo := s.hub.todo - {id}));
    if c.send.closed then t.(panicked := true)
    else if |c.send.buf| < BUF_SIZE then Put(t, id, Enqueue(c, s.hub.message))
    else t.(clients := t.clients - {id},
            conns := t.conns[id := Shut(c, if s.log == [] then 0 else |s.log| - 1)])
  }

  function Enqueue(c: Conn, m: Bytes): Conn {
    c.(send := c.send.(buf := c.send.buf + [m]), enqueued := c.enqueued + [m])
  }

  /** close(client.send), at position `until` of the broadcast log. */
  function Shut(c: Conn, until: nat): Conn {
    c.(send := c.send.(closed := true), closes := c.closes + 1,
       life := Gone(if c.life.Newcomer? then 0 else c.life.from, until))
  }

  // --------------------------------------------------------------- writePump

  function DoTake(c: Conn): Conn
    requires CanReceive(c.send)
  {
    if c.send.buf == [] then c.(writer := SawClose)
    else c.(writer := Taken(c.send.buf[0]), send := c.send.(buf := c.send.buf[1..]))
  }

  function DoOpenFrame(c: Conn, ok: bool): Conn
    requires c.writer.Taken?
  {
    if ok then c.(writer := Opened(c.writer.message))
    else c.(writer := Exiting, failed := true, lost := [c.writer.message])
  }

  /** A receive from a closed and empty channel yields the zero value, here []. */
  function DoDrain(c: Conn): Conn
    requires c.writer.Draining? && c.writer.left > 0 && CanReceive(c.send)
  {
    var w := c.writer;
    if c.send.buf == [] then c.(writer := Draining(w.batch + [[]], w.left - 1))
    else c.(writer := Draining(w.batch + [c.send.buf[0]], w.left - 1),
            send := c.send.(buf := c.send.buf[1..]))
  }

  function DoFlush(c: Conn, ok: bool): Conn
    requires c.writer.Draining?
  {
    if ok then c.(writer := Waiting, wire := c.wire + [Data(Join(NEWLINE, c.writer.batch))])
    else c.(writer := Exiting, failed := true, lost := c.writer.batch)
  }

  function DoWrite(c: Conn, f: Frame, next: Writer, ok: bool): Conn {
    if ok then c.(writer := next, wire := c.wire + [f])
    else c.(writer := Exiting, failed := true)
  }

  // -------------------------------------------------------------------- runs

  /** Every step of the sequence is enabled when its turn comes. */
  predicate CanRun(s: State, steps: seq<Step>)
    decreases |steps|
  {
    steps == [] || (Enabled(s, steps[0]) && CanRun(Apply(s, steps[0]), steps[1..]))
  }

  function After(s: State, steps: seq<Step>): State
    requires CanRun(s, steps)
    decreases |steps|
  {
    if steps == [] then s else After(Apply(s, steps[0]), steps[1..])
  }

  /** Some interleaving leads from the start of the program to s. */
  ghost predicate Reachable(s: State) {
    exists steps :: CanRun(Init(), steps) && After(Init(), steps) == s
  }

  // --------------------------------------------------------- what a peer sees

  /** The chat lines a browser shows: each data frame is split on newline. */
  function PeerView(wire: seq<Frame>): (lines: seq<Bytes>)
  {
    if wire == [] then []
    else
      var seen := PeerView(wire[..|wire| - 1]);
      var f := wire[|wire| - 1];
      if f.Data? then seen + Split(NEWLINE, f.payload) else seen
  }

  /** Messages the writer has received but not yet put on the wire. */
  function InHand(w: Writer): seq<Bytes> {
    match w
    case Taken(m) => [m]
    case Opened(m) => [m]
    case Draining(batch, _) => batch
    case _ => []
  }
}
