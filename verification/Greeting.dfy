/** The bidirectional greeting stream: the client's send loop, its receiving goroutine
    and the server's receive/reply loop over two FIFO streams, with a WaitGroup as the
    client's barrier. The client sends an arbitrary list of names. */
module Greeting {

  /** The client's main goroutine: about to Add, about to Send, waiting, or gone. */
  datatype Client = Adding | Sending | Waiting | Exited | Crashed

  /** The receiving goroutine: in Recv, with a response to print, about to call Done. */
  datatype Receiver = Receiving | Got(resp: string) | Printed

  datatype Server = Ready | Replying(name: string) | Ended

  datatype State = State(
    client: Client,
    next: nat,
    wg: int,
    receiver: Receiver,
    server: Server,
    toServer: seq<string>,
    toClient: seq<string>,
    printed: seq<string>)

  datatype Step = Add | Send | WaitReturns | Recv | Print | Done | ServerRecv | Reply | ServerStops | Fatal

  function Hello(name: string): string {
    "hello, " + name
  }

  function Hellos(names: seq<string>): seq<string> {
    seq(|names|, i requires 0 <= i < |names| => Hello(names[i]))
  }

  function Init(names: seq<string>): State {
    State(if names == [] then Waiting else Adding, 0, 0, Receiving, Ready, [], [], [])
  }

  predicate Running(s: State) {
    !s.client.Exited? && !s.client.Crashed?
  }

  predicate Enabled(names: seq<string>, s: State, step: Step) {
    match step
    case Add => s.client.Adding? && s.next < |names|
    case Send => s.client.Sending? && s.next < |names|
    case WaitReturns => s.client.Waiting? && s.wg == 0
    case Recv => Running(s) && s.receiver.Receiving? && s.toClient != []
    case Print => Running(s) && s.receiver.Got?
    case Done => Running(s) && s.receiver.Printed?
    case ServerRecv => s.server.Ready? && s.toServer != []
    case Reply => s.server.Replying?
    case ServerStops => s.server.Ready?
    case Fatal => Running(s)
  }

  function Apply(names: seq<string>, s: State, step: Step): State
    requires Enabled(names, s, step)
  {
    match step
    case Add => s.(client := Sending, wg := s.wg + 1)
    case Send =>
      s.(client := if s.next + 1 < |names| then Adding else Waiting,
         next := s.next + 1,
         toServer := s.toServer + [names[s.next]])
    case WaitReturns => s.(client := Exited)
    case Recv => s.(receiver := Got(s.toClient[0]), toClient := s.toClient[1..])
    case Print => s.(receiver := Printed, printed := s.printed + [s.receiver.resp])
    case Done => s.(receiver := Receiving, wg := s.wg - 1)
    case ServerRecv => s.(server := Replying(s.toServer[0]), toServer := s.toServer[1..])
    case Reply => s.(server := Ready, toClient := s.toClient + [Hello(s.server.name)])
    case ServerStops => s.(server := Ended)
    case Fatal => s.(client := Crashed)
  }

  predicate CanRun(names: seq<string>, s: State, steps: seq<Step>)
    decreases |steps|
  {
    steps == [] || (Enabled(names, s, steps[0]) && CanRun(names, Apply(names, s, steps[0]), steps[1..]))
  }

  function After(names: seq<string>, s: State, steps: seq<Step>): State
    requires CanRun(names, s, steps)
    decreases |steps|
  {
    if steps == [] then s else After(names, Apply(names, s, steps[0]), steps[1..])
  }

  ghost predicate Reachable(names: seq<string>, s: State) {
    exists steps :: CanRun(names, Init(names), steps) && After(names, Init(names), steps) == s
  }

  // ------------------------------------------------------------------ invariant

  /** Responses that have left the server's stream, and names the server has read. */
  function Taken(s: State): nat {
    |s.printed| + if s.receiver.Got? then 1 else 0
  }

  function Replied(s: State): nat {
    Taken(s) + |s.toClient|
  }

  function Read(s: State): nat {
    Replied(s) + if s.server.Replying? then 1 else 0
  }

  /** Calls of wg.Add and wg.Done so far. */
  function Adds(s: State): nat {
    s.next + if s.client.Sending? then 1 else 0
  }

  function Dones(s: State): int {
    |s.printed| - if s.receiver.Printed? then 1 else 0
  }

  /** Each name is in exactly one place: printed, in the receiver's hand, on its way
      back, in the server's hand, on its way out, or not sent yet; all in order. */
  predicate Inv(names: seq<string>, s: State) {
    && s.next <= |names|
    && Read(s) <= s.next
    && s.printed == Hellos(names[..|s.printed|])
    && (s.receiver.Got? ==> s.receiver.resp == Hello(names[|s.printed|]))
    && s.toClient == Hellos(names[Taken(s)..Replied(s)])
    && (s.server.Replying? ==> s.server.name == names[Replied(s)])
    && s.toServer == names[Read(s)..s.next]
    && (!s.client.Crashed? ==> s.wg == Adds(s) - Dones(s))
    && (s.receiver.Printed? ==> s.printed != [])
    && (s.client.Adding? || s.client.Sending? ==> s.next < |names|)
    && (s.client.Waiting? || s.client.Exited? ==> s.next == |names|)
    && (s.client.Exited? ==> s.wg == 0)
  }

  lemma HellosSplit(a: seq<string>, b: seq<string>)
    ensures Hellos(a + b) == Hellos(a) + Hellos(b)
  {
  }

  lemma RecvKeeps(names: seq<string>, s: State)
    requires Inv(names, s) && Enabled(names, s, Recv)
    ensures Inv(names, Apply(names, s, Recv))
  {
    var part := names[Taken(s)..Replied(s)];
    assert part == [names[Taken(s)]] + names[Taken(s) + 1..Replied(s)];
    HellosSplit([names[Taken(s)]], names[Taken(s) + 1..Replied(s)]);
    assert s.toClient == [Hello(names[Taken(s)])] + Hellos(names[Taken(s) + 1..Replied(s)]);
  }

  lemma PrintKeeps(names: seq<string>, s: State)
    requires Inv(names, s) && Enabled(names, s, Print)
    ensures Inv(names, Apply(names, s, Print))
  {
    var k := |s.printed|;
    HellosSplit(names[..k], [names[k]]);
    assert names[..k] + [names[k]] == names[..k + 1];
    assert Hellos([names[k]]) == [Hello(names[k])];
  }

  lemma ReplyKeeps(names: seq<string>, s: State)
    requires Inv(names, s) && Enabled(names, s, Reply)
    ensures Inv(names, Apply(names, s, Reply))
  {
    var t, r := Taken(s), Replied(s);
    HellosSplit(names[t..r], [names[r]]);
    assert names[t..r] + [names[r]] == names[t..r + 1];
    assert Hellos([names[r]]) == [Hello(names[r])];
  }

  lemma SendKeeps(names: seq<string>, s: State)
    requires Inv(names, s) && Enabled(names, s, Send)
    ensures Inv(names, Apply(names, s, Send))
  {
    assert names[Read(s)..s.next] + [names[s.next]] == names[Read(s)..s.next + 1];
  }

  lemma ServerRecvKeeps(names: seq<string>, s: State)
    requires Inv(names, s) && Enabled(names, s, ServerRecv)
    ensures Inv(names, Apply(names, s, ServerRecv))
  {
    assert s.toServer == [names[Read(s)]] + names[Read(s) + 1..s.next];
  }

  lemma StepKeeps(names: seq<string>, s: State, step: Step)
    requires Inv(names, s) && Enabled(names, s, step)
    ensures Inv(names, Apply(names, s, step))
  {
    match step
    case Recv => RecvKeeps(names, s);
    case Print => PrintKeeps(names, s);
    case Reply => ReplyKeeps(names, s);
    case Send => SendKeeps(names, s);
    case ServerRecv => ServerRecvKeeps(names, s);
    case _ =>
  }

  lemma InitInv(names: seq<string>)
    ensures Inv(names, Init(names))
  {
    var s := Init(names);
    assert names[..0] == [] && names[0..0] == [] && Hellos([]) == [];
    assert Taken(s) == 0 && Replied(s) == 0 && Read(s) == 0 && Adds(s) == 0 && Dones(s) == 0;
  }

  lemma {:induction false} RunKeeps(names: seq<string>, s: State, steps: seq<Step>)
    requires Inv(names, s) && CanRun(names, s, steps)
    ensures Inv(names, After(names, s, steps))
    decreases |steps|
  {
    if steps != [] {
      StepKeeps(names, s, steps[0]);
      RunKeeps(names, Apply(names, s, steps[0]), steps[1..]);
    }
  }

  lemma ReachableInv(names: seq<string>, s: State)
    requires Reachable(names, s)
    ensures Inv(names, s)
  {
    var steps :| CanRun(names, Init(names), steps) && After(names, Init(names), steps) == s;
    InitInv(names);
    RunKeeps(names, Init(names), steps);
  }

  // -------------------------------------------------------------------- theorems

  /** At every moment the replies printed are the greetings of a prefix of the names
      sent, in order, and the WaitGroup counts requests less replies, never below 0.
      Wait returns only after every name has been greeted. */
  lemma RepliesInOrder(names: seq<string>, s: State)
    requires Reachable(names, s)
    ensures |s.printed| <= s.next <= |names| && s.printed == Hellos(names[..|s.printed|])
    ensures forall i :: 0 <= i < |s.printed| ==> s.printed[i] == "hello, " + names[i]
    ensures !s.client.Crashed? ==> s.wg == Adds(s) - Dones(s) >= 0
    ensures s.client.Exited? || Enabled(names, s, WaitReturns) ==> |s.printed| == |names|
    ensures s.client.Exited? ==> s.printed == Hellos(names)
    ensures Enabled(names, s, WaitReturns) ==> s.printed == Hellos(names)
  {
    ReachableInv(names, s);
    if s.next == |names| && s.wg == 0 && Adds(s) == s.next {
      assert names[..|names|] == names;
    }
  }

  predicate Failure(step: Step) {
    step.ServerStops? || step.Fatal?
  }

  /** Atomic actions still to come before the client exits. */
  function Left(names: seq<string>, s: State): int {
    7 * |names| + 1 - 2 * s.next - (if s.client.Sending? then 1 else 0)
    - 2 * Read(s) + (if s.server.Replying? then 1 else 0)
    - Taken(s) - |s.printed| - Dones(s)
    - (if s.client.Exited? then 1 else 0)
  }

  lemma StepCounted(names: seq<string>, s: State, step: Step)
    requires Enabled(names, s, step) && !Failure(step)
    ensures Left(names, Apply(names, s, step)) == Left(names, s) - 1
  {
  }

  lemma {:induction false} StepsCounted(names: seq<string>, s: State, steps: seq<Step>)
    requires CanRun(names, s, steps)
    requires forall i :: 0 <= i < |steps| ==> !Failure(steps[i])
    ensures Left(names, After(names, s, steps)) == Left(names, s) - |steps|
    decreases |steps|
  {
    if steps != [] {
      StepCounted(names, s, steps[0]);
      StepsCounted(names, Apply(names, s, steps[0]), steps[1..]);
    }
  }

  lemma LeftBounds(names: seq<string>, s: State)
    requires Inv(names, s)
    ensures Left(names, s) >= 0 && (Left(names, s) == 0 <==> s.client.Exited?)
  {
  }

  /** Some step other than a failure is possible until the client has exited. */
  lemma NoDeadlock(names: seq<string>, s: State)
    requires Inv(names, s) && Running(s) && !s.server.Ended?
    ensures exists step :: !Failure(step) && Enabled(names, s, step)
  {
    if s.receiver.Got? {
      assert Enabled(names, s, Print);
    } else if s.receiver.Printed? {
      assert Enabled(names, s, Done);
    } else if s.toClient != [] {
      assert Enabled(names, s, Recv);
    } else if s.server.Replying? {
      assert Enabled(names, s, Reply);
    } else if s.toServer != [] {
      assert Enabled(names, s, ServerRecv);
    } else if s.client.Adding? {
      assert Enabled(names, s, Add);
    } else if s.client.Sending? {
      assert Enabled(names, s, Send);
    } else {
      assert Read(s) == s.next;
      assert Enabled(names, s, WaitReturns);
    }
  }

  lemma {:induction false} ServerAlive(names: seq<string>, s: State, steps: seq<Step>)
    requires CanRun(names, s, steps) && !s.server.Ended? && !s.client.Crashed?
    requires forall i :: 0 <= i < |steps| ==> !Failure(steps[i])
    ensures !After(names, s, steps).server.Ended? && !After(names, s, steps).client.Crashed?
    decreases |steps|
  {
    if steps != [] {
      ServerAlive(names, Apply(names, s, steps[0]), steps[1..]);
    }
  }

  /** Without failures the protocol never gets stuck before the client has exited, and
      the client exits after exactly 7 actions per name and the return of Wait. */
  lemma RunsToTheEnd(names: seq<string>, steps: seq<Step>)
    requires CanRun(names, Init(names), steps)
    requires forall i :: 0 <= i < |steps| ==> !Failure(steps[i])
    ensures var s := After(names, Init(names), steps);
            && |steps| <= 7 * |names| + 1
            && (s.client.Exited? <==> |steps| == 7 * |names| + 1)
            && (!s.client.Exited? ==> exists step :: !Failure(step) && Enabled(names, s, step))
  {
    InitInv(names);
    InitLeft(names);
    RunsOut(names, Init(names), steps);
  }

  lemma InitLeft(names: seq<string>)
    ensures Left(names, Init(names)) == 7 * |names| + 1
  {
    var s := Init(names);
    assert Read(s) == 0 && Taken(s) == 0 && Dones(s) == 0;
  }

  lemma RunsOut(names: seq<string>, start: State, steps: seq<Step>)
    requires Inv(names, start) && !start.server.Ended? && !start.client.Crashed?
    requires CanRun(names, start, steps)
    requires forall i :: 0 <= i < |steps| ==> !Failure(steps[i])
    ensures var s := After(names, start, steps);
            && |steps| <= Left(names, start)
            && (s.client.Exited? <==> |steps| == Left(names, start))
            && (!s.client.Exited? ==> exists step :: !Failure(step) && Enabled(names, s, step))
  {
    RunKeeps(names, start, steps);
    StepsCounted(names, start, steps);
    ServerAlive(names, start, steps);
    EndOfRun(names, After(names, start, steps));
  }

  lemma EndOfRun(names: seq<string>, s: State)
    requires Inv(names, s) && !s.server.Ended? && !s.client.Crashed?
    ensures Left(names, s) >= 0 && (Left(names, s) == 0 <==> s.client.Exited?)
    ensures !s.client.Exited? ==> exists step :: !Failure(step) && Enabled(names, s, step)
  {
    LeftBounds(names, s);
    if !s.client.Exited? {
      NoDeadlock(names, s);
    }
  }

  lemma {:induction false} CrashedPrintsNothing(names: seq<string>, s: State, steps: seq<Step>)
    requires s.client.Crashed? && CanRun(names, s, steps)
    ensures After(names, s, steps).client.Crashed? && After(names, s, steps).printed == s.printed
    decreases |steps|
  {
    if steps != [] {
      CrashedPrintsNothing(names, Apply(names, s, steps[0]), steps[1..]);
    }
  }

  /** A failure of Send or Recv can come at any time while the client runs, and it ends the
      client: nothing is printed afterwards. */
  lemma FatalEnds(names: seq<string>, s: State, steps: seq<Step>)
    requires Running(s)
    ensures Enabled(names, s, Fatal)
    ensures CanRun(names, Apply(names, s, Fatal), steps) ==>
              After(names, Apply(names, s, Fatal), steps).printed == s.printed
  {
    if CanRun(names, Apply(names, s, Fatal), steps) {
      CrashedPrintsNothing(names, Apply(names, s, Fatal), steps);
    }
  }

  lemma Prepend(names: seq<string>, s: State, step: Step, rest: seq<Step>)
    requires Enabled(names, s, step) && CanRun(names, Apply(names, s, step), rest)
    ensures CanRun(names, s, [step] + rest) && After(names, s, [step] + rest) == After(names, Apply(names, s, step), rest)
  {
    assert ([step] + rest)[1..] == rest;
  }

  /** The send loop does not wait for replies: from any point of it the client can send all
      remaining names on its own. */
  lemma {:induction false} SendsAhead(names: seq<string>, s: State) returns (steps: seq<Step>)
    requires s.client.Adding? && s.next < |names|
    ensures CanRun(names, s, steps) && forall i :: 0 <= i < |steps| ==> steps[i].Add? || steps[i].Send?
    ensures After(names, s, steps)
         == s.(client := Waiting, next := |names|, wg := s.wg + |names| - s.next, toServer := s.toServer + names[s.next..])
    decreases |names| - s.next
  {
    var added := Apply(names, s, Add);
    var sent := Apply(names, added, Send);
    assert names[s.next..] == [names[s.next]] + names[s.next + 1..];
    var rest := [];
    if s.next + 1 < |names| {
      rest := SendsAhead(names, sent);
    } else {
      assert names[s.next + 1..] == [];
    }
    Prepend(names, added, Send, rest);
    Prepend(names, s, Add, [Send] + rest);
    steps := [Add] + ([Send] + rest);
    assert s.toServer + names[s.next..] == sent.toServer + names[s.next + 1..];
  }

  /** Nor does the server wait for the client to read: it can answer all it has been sent. */
  lemma {:induction false} RepliesAhead(names: seq<string>, s: State) returns (steps: seq<Step>)
    requires s.server.Ready?
    ensures CanRun(names, s, steps) && forall i :: 0 <= i < |steps| ==> steps[i].ServerRecv? || steps[i].Reply?
    ensures After(names, s, steps) == s.(toServer := [], toClient := s.toClient + Hellos(s.toServer))
    decreases |s.toServer|
  {
    if s.toServer == [] {
      steps := [];
      assert s.toClient + Hellos([]) == s.toClient;
    } else {
      var read := Apply(names, s, ServerRecv);
      var replied := Apply(names, read, Reply);
      var rest := RepliesAhead(names, replied);
      Prepend(names, read, Reply, rest);
      Prepend(names, s, ServerRecv, [Reply] + rest);
      steps := [ServerRecv] + ([Reply] + rest);
      assert s.toServer == [s.toServer[0]] + s.toServer[1..];
      HellosSplit([s.toServer[0]], s.toServer[1..]);
      assert Hellos([s.toServer[0]]) == [Hello(s.toServer[0])];
      assert s.toClient + Hellos(s.toServer) == replied.toClient + Hellos(replied.toServer);
    }
  }

  /** And the receiving goroutine can print all that has arrived, whatever the send loop is
      doing. */
  lemma {:induction false} ReceivesAhead(names: seq<string>, s: State) returns (steps: seq<Step>)
    requires Running(s) && s.receiver.Receiving?
    ensures CanRun(names, s, steps) && forall i :: 0 <= i < |steps| ==> steps[i].Recv? || steps[i].Print? || steps[i].Done?
    ensures After(names, s, steps) == s.(toClient := [], printed := s.printed + s.toClient, wg := s.wg - |s.toClient|)
    decreases |s.toClient|
  {
    if s.toClient == [] {
      steps := [];
    } else {
      var got := Apply(names, s, Recv);
      var printed := Apply(names, got, Print);
      var done := Apply(names, printed, Done);
      var rest := ReceivesAhead(names, done);
      Prepend(names, printed, Done, rest);
      Prepend(names, got, Print, [Done] + rest);
      Prepend(names, s, Recv, [Print] + ([Done] + rest));
      steps := [Recv] + ([Print] + ([Done] + rest));
      assert s.printed + s.toClient == done.printed + done.toClient;
    }
  }

  /** The server's loop on its own: it answers the requests it reads, in order, until
      the stream ends or the call is cancelled before one of its receives. */
  method Greet(inbox: seq<string>, cancelledAt: nat) returns (replies: seq<string>)
    ensures replies == Hellos(inbox[..if cancelledAt < |inbox| then cancelledAt else |inbox|])
    ensures |replies| == if cancelledAt < |inbox| then cancelledAt else |inbox|
    ensures forall i :: 0 <= i < |replies| ==> replies[i] == "hello, " + inbox[i]
  {
    replies := [];
    var i := 0;
    while i < |inbox| && i < cancelledAt
      invariant 0 <= i <= |inbox| && i <= cancelledAt
      invariant replies == Hellos(inbox[..i])
    {
      var greet := "hello, " + inbox[i];
      assert inbox[..i + 1] == inbox[..i] + [inbox[i]];
      HellosSplit(inbox[..i], [inbox[i]]);
      replies := replies + [greet];
      i := i + 1;
    }
  }
}
