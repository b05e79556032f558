/** Counters that are read and zeroed by a reporting goroutine while requests keep
    counting: the simulation client's four atomic counters, swapped one by one, and the
    breaker client's mutex-protected metric. */
module Counters {

  // ------------------------------------------------ load/simulate: atomic counters

  datatype Kind = Passed | DroppedOut | FailedOut

  /** One line of the report. */
  datatype Line = Line(total: int, pass: int, fail: int, drop: int)

  /** How far the current call of reset has come with its swaps. */
  datatype Resetter =
    | Idle
    | HasTotal(total: int)
    | HasPass(total: int, pass: int)
    | HasFail(total: int, pass: int, fail: int)

  /** The live counters, the reset in progress, the lines written so far and, as
      history, the requests started and those finished in each way. */
  datatype State = State(
    live: Line,
    resetter: Resetter,
    lines: seq<Line>,
    started: nat,
    passed: nat,
    failed: nat,
    dropped: nat)

  datatype Step = Start | Finish(kind: Kind) | Reset

  function Init(): State {
    State(Line(0, 0, 0, 0), Idle, [], 0, 0, 0, 0)
  }

  function Finished(s: State): nat {
    s.passed + s.failed + s.dropped
  }

  predicate Enabled(s: State, step: Step) {
    step.Finish? ==> Finished(s) < s.started
  }

  /** A request's counter update, or one swap of reset; the fourth swap completes the
      line. */
  function Apply(s: State, step: Step): State
    requires Enabled(s, step)
  {
    match step
    case Start => s.(live := s.live.(total := s.live.total + 1), started := s.started + 1)
    case Finish(Passed) => s.(live := s.live.(pass := s.live.pass + 1), passed := s.passed + 1)
    case Finish(DroppedOut) => s.(live := s.live.(drop := s.live.drop + 1), dropped := s.dropped + 1)
    case Finish(FailedOut) => s.(live := s.live.(fail := s.live.fail + 1), failed := s.failed + 1)
    case Reset =>
      match s.resetter
      case Idle => s.(resetter := HasTotal(s.live.total), live := s.live.(total := 0))
      case HasTotal(t) => s.(resetter := HasPass(t, s.live.pass), live := s.live.(pass := 0))
      case HasPass(t, p) => s.(resetter := HasFail(t, p, s.live.fail), live := s.live.(fail := 0))
      case HasFail(t, p, f) =>
        s.(resetter := Idle, lines := s.lines + [Line(t, p, f, s.live.drop)], live := s.live.(drop := 0))
  }

  predicate CanRun(s: State, steps: seq<Step>)
    decreases |steps|
  {
    steps == [] || (Enabled(s, steps[0]) && CanRun(Apply(s, steps[0]), steps[1..]))
  }

  function After(s: State, steps: seq<Step>): State
    requires CanRun(s, steps)
    decreases |steps|
  {
    if steps == [] then s else After(Apply(s, steps[0]), steps[1..])
  }

  /** The sum of all lines. */
  function Report(lines: seq<Line>): Line {
    if lines == [] then Line(0, 0, 0, 0)
    else
      var r, l := Report(lines[..|lines| - 1]), lines[|lines| - 1];
      Line(r.total + l.total, r.pass + l.pass, r.fail + l.fail, r.drop + l.drop)
  }

  /** What a reset in progress has taken and not yet written. */
  function InHand(r: Resetter): Line {
    match r
    case Idle => Line(0, 0, 0, 0)
    case HasTotal(t) => Line(t, 0, 0, 0)
    case HasPass(t, p) => Line(t, p, 0, 0)
    case HasFail(t, p, f) => Line(t, p, f, 0)
  }

  predicate Conserved(s: State) {
    var r, h, l := Report(s.lines), InHand(s.resetter), s.live;
    && r.total + h.total + l.total == s.started
    && r.pass + h.pass + l.pass == s.passed
    && r.fail + h.fail + l.fail == s.failed
    && r.drop + h.drop + l.drop == s.dropped
    && Finished(s) <= s.started
  }

  lemma StepConserves(s: State, step: Step)
    requires Conserved(s) && Enabled(s, step)
    ensures Conserved(Apply(s, step))
  {
    if step.Reset? && s.resetter.HasFail? {
      assert Apply(s, step).lines[..|s.lines|] == s.lines;
    }
  }

  /** Over any interleaving of requests with the four separate swaps of reset, no count
      is lost or reported twice: reported plus in hand plus live equals requests
      started, and likewise for each way of finishing. */
  lemma {:induction false} SwapsConserve(s: State, steps: seq<Step>)
    requires Conserved(s) && CanRun(s, steps)
    ensures Conserved(After(s, steps))
    decreases |steps|
  {
    if steps != [] {
      StepConserves(s, steps[0]);
      SwapsConserve(Apply(s, steps[0]), steps[1..]);
    }
  }

  /** Between two resets: everything reported so far plus the live counters accounts
      for every request, those still running being exactly the difference. */
  lemma ReportedPlusLive(steps: seq<Step>)
    requires CanRun(Init(), steps) && After(Init(), steps).resetter.Idle?
    ensures var s := After(Init(), steps);
            && Report(s.lines).total + s.live.total == s.started
            && Report(s.lines).pass + Report(s.lines).fail + Report(s.lines).drop
               + s.live.pass + s.live.fail + s.live.drop == Finished(s) <= s.started
  {
    SwapsConserve(Init(), steps);
    Settled(After(Init(), steps));
  }

  lemma Settled(s: State)
    requires Conserved(s) && s.resetter.Idle?
    ensures Report(s.lines).total + s.live.total == s.started
    ensures Report(s.lines).pass + Report(s.lines).fail + Report(s.lines).drop
            + s.live.pass + s.live.fail + s.live.drop == Finished(s) <= s.started
  {
  }

  /** A single line need not balance: a request that starts and passes between the swap
      of `total` and the swap of `pass` shows up as a pass without a start. */
  lemma LineNeedNotBalance()
    ensures exists steps :: CanRun(Init(), steps)
              && After(Init(), steps).lines == [Line(0, 1, 0, 0)]
  {
    var s1 := Apply(Init(), Reset);
    var s2 := Apply(s1, Start);
    var s3 := Apply(s2, Finish(Passed));
    var s4 := Apply(s3, Reset);
    var s5 := Apply(s4, Reset);
    var s6 := Apply(s5, Reset);
    assert s6.lines == [Line(0, 1, 0, 0)];
    Prepend(s5, Reset, []);
    Prepend(s4, Reset, [Reset]);
    Prepend(s3, Reset, [Reset, Reset]);
    Prepend(s2, Finish(Passed), [Reset, Reset, Reset]);
    Prepend(s1, Start, [Finish(Passed), Reset, Reset, Reset]);
    Prepend(Init(), Reset, [Start, Finish(Passed), Reset, Reset, Reset]);
  }

  lemma Prepend(s: State, step: Step, rest: seq<Step>)
    requires Enabled(s, step) && CanRun(Apply(s, step), rest)
    ensures CanRun(s, [step] + rest) && After(s, [step] + rest) == After(Apply(s, step), rest)
  {
    assert ([step] + rest)[1..] == rest;
  }

  /** How many requests end this way in the steps. */
  function Ends(steps: seq<Step>, kind: Kind): nat {
    if steps == [] then 0 else (if steps[0] == Finish(kind) then 1 else 0) + Ends(steps[1..], kind)
  }

  function Starts(steps: seq<Step>): nat {
    if steps == [] then 0 else (if steps[0].Start? then 1 else 0) + Starts(steps[1..])
  }

  predicate Quiet(steps: seq<Step>) {
    forall i :: 0 <= i < |steps| ==> !steps[i].Reset?
  }

  /** Requests that end in the steps. */
  function AllEnds(steps: seq<Step>): nat {
    Ends(steps, Passed) + Ends(steps, FailedOut) + Ends(steps, DroppedOut)
  }

  /** At no point have more requests ended than started. */
  ghost predicate StartsFirst(s: State, steps: seq<Step>) {
    forall k :: 0 <= k <= |steps| ==> Finished(s) + AllEnds(steps[..k]) <= s.started + Starts(steps[..k])
  }

  lemma StartsFirstCons(s: State, steps: seq<Step>)
    requires steps != [] && Enabled(s, steps[0])
    ensures StartsFirst(s, steps) <==>
              Finished(s) <= s.started && StartsFirst(Apply(s, steps[0]), steps[1..])
  {
    var t, rest := Apply(s, steps[0]), steps[1..];
    forall k | 0 < k <= |steps|
      ensures Finished(s) + AllEnds(steps[..k]) <= s.started + Starts(steps[..k])
         <==> Finished(t) + AllEnds(rest[..k - 1]) <= t.started + Starts(rest[..k - 1])
    {
      assert steps[..k][1..] == rest[..k - 1];
    }
    if StartsFirst(s, steps) {
      assert steps[..0] == [];
      forall k | 0 <= k <= |rest| ensures Finished(t) + AllEnds(rest[..k]) <= t.started + Starts(rest[..k]) {
        assert Finished(s) + AllEnds(steps[..k + 1]) <= s.started + Starts(steps[..k + 1]);
      }
    }
    if Finished(s) <= s.started && StartsFirst(t, rest) {
      forall k | 0 <= k <= |steps| ensures Finished(s) + AllEnds(steps[..k]) <= s.started + Starts(steps[..k]) {
        if k == 0 {
          assert steps[..0] == [];
        }
      }
    }
  }

  lemma EndsOne(step: Step, kind: Kind)
    ensures Ends([step], kind) == if step == Finish(kind) then 1 else 0
    ensures Starts([step]) == if step.Start? then 1 else 0
  {
    assert [step][1..] == [];
    assert Ends([], kind) == 0 && Starts([]) == 0;
  }

  /** Every mix of starts, ends and swaps is a run, if no request ends before it starts. */
  lemma {:induction false} RunsExact(s: State, steps: seq<Step>)
    requires Finished(s) <= s.started
    ensures CanRun(s, steps) <==> StartsFirst(s, steps)
    decreases |steps|
  {
    if steps != [] {
      if Enabled(s, steps[0]) {
        StartsFirstCons(s, steps);
        RunsExact(Apply(s, steps[0]), steps[1..]);
      } else {
        EndsOne(steps[0], Passed);
        EndsOne(steps[0], FailedOut);
        EndsOne(steps[0], DroppedOut);
        assert steps[..1] == [steps[0]];
        var kind := steps[0].kind;
        assert kind.Passed? || kind.FailedOut? || kind.DroppedOut?;
        assert AllEnds(steps[..1]) == 1;
      }
    }
  }

  lemma {:induction false} RunConcat(s: State, a: seq<Step>, b: seq<Step>)
    requires CanRun(s, a + b)
    ensures CanRun(s, a) && CanRun(After(s, a), b) && After(s, a + b) == After(After(s, a), b)
    decreases |a|
  {
    if a == [] {
      assert a + b == b;
    } else {
      assert (a + b)[1..] == a[1..] + b;
      RunConcat(Apply(s, a[0]), a[1..], b);
    }
  }

  /** Requests alone add to the live counters and leave the reset where it is. */
  lemma {:induction false} QuietRun(s: State, steps: seq<Step>)
    requires CanRun(s, steps) && Quiet(steps)
    ensures var t := After(s, steps);
            && t.resetter == s.resetter && t.lines == s.lines
            && t.live == Line(s.live.total + Starts(steps), s.live.pass + Ends(steps, Passed),
                              s.live.fail + Ends(steps, FailedOut), s.live.drop + Ends(steps, DroppedOut))
    decreases |steps|
  {
    if steps != [] {
      assert !steps[0].Reset?;
      QuietRun(Apply(s, steps[0]), steps[1..]);
    }
  }

  /** One swap followed by requests. */
  lemma SwapRun(s: State, quiet: seq<Step>, rest: seq<Step>) returns (t: State)
    requires CanRun(s, [Reset] + quiet + rest) && Quiet(quiet)
    ensures CanRun(t, rest) && After(s, [Reset] + quiet + rest) == After(t, rest)
    ensures var u := Apply(s, Reset);
            && t.resetter == u.resetter && t.lines == u.lines
            && t.live == Line(u.live.total + Starts(quiet), u.live.pass + Ends(quiet, Passed),
                              u.live.fail + Ends(quiet, FailedOut), u.live.drop + Ends(quiet, DroppedOut))
  {
    RunConcat(s, [Reset] + quiet, rest);
    assert ([Reset] + quiet)[1..] == quiet;
    QuietRun(Apply(s, Reset), quiet);
    t := After(Apply(s, Reset), quiet);
  }

  /** The steps of one call of reset, with requests between its four swaps. */
  function OneReset(a: seq<Step>, b: seq<Step>, c: seq<Step>): seq<Step> {
    [Reset] + a + LastThree(b, c)
  }

  function LastThree(b: seq<Step>, c: seq<Step>): seq<Step> {
    [Reset] + b + LastTwo(c)
  }

  function LastTwo(c: seq<Step>): seq<Step> {
    [Reset] + c + [Reset]
  }

  lemma LastSwap(s: State)
    ensures CanRun(s, [Reset]) && After(s, [Reset]) == Apply(s, Reset)
  {
    assert [Reset][1..] == [];
  }

  lemma LineFromThirdSwap(s: State, c: seq<Step>)
    requires s.resetter.HasPass? && Quiet(c) && CanRun(s, LastTwo(c))
    ensures After(s, LastTwo(c)).lines
         == s.lines + [Line(s.resetter.total, s.resetter.pass, s.live.fail, s.live.drop + Ends(c, DroppedOut))]
  {
    var t := SwapRun(s, c, [Reset]);
    LastSwap(t);
  }

  lemma LineFromSecondSwap(s: State, b: seq<Step>, c: seq<Step>, steps: seq<Step>)
    requires s.resetter.HasTotal? && Quiet(b) && Quiet(c) && steps == LastThree(b, c) && CanRun(s, steps)
    ensures After(s, steps).lines
         == s.lines + [Line(s.resetter.total, s.live.pass, s.live.fail + Ends(b, FailedOut),
                            s.live.drop + Ends(b, DroppedOut) + Ends(c, DroppedOut))]
  {
    var t := SwapRun(s, b, LastTwo(c));
    LineFromThirdSwap(t, c);
  }

  lemma LineFromFirstSwap(s: State, a: seq<Step>, b: seq<Step>, c: seq<Step>, rest: seq<Step>)
    requires s.resetter.Idle? && Quiet(a) && Quiet(b) && Quiet(c) && rest == LastThree(b, c)
    requires CanRun(s, [Reset] + a + rest)
    ensures After(s, [Reset] + a + rest).lines == s.lines + [LineOf(s, a, b, c)]
  {
    var t := SwapRun(s, a, rest);
    LineFromSecondSwap(t, b, c, rest);
  }

  /** The counters as they stood at the first swap, and besides every pass, failure and
      drop that ended before its own counter was swapped. */
  function LineOf(s: State, a: seq<Step>, b: seq<Step>, c: seq<Step>): Line {
    Line(s.live.total,
         s.live.pass + Ends(a, Passed),
         s.live.fail + Ends(a, FailedOut) + Ends(b, FailedOut),
         s.live.drop + Ends(a, DroppedOut) + Ends(b, DroppedOut) + Ends(c, DroppedOut))
  }

  /** Exactly what the line of one reset says. */
  lemma LineExact(s: State, a: seq<Step>, b: seq<Step>, c: seq<Step>)
    requires s.resetter.Idle? && Quiet(a) && Quiet(b) && Quiet(c)
    requires CanRun(s, OneReset(a, b, c))
    ensures After(s, OneReset(a, b, c)).lines == s.lines + [LineOf(s, a, b, c)]
  {
    LineFromFirstSwap(s, a, b, c, LastThree(b, c));
  }

  /** A line is the joint snapshot of the four counters exactly when no pass ended before
      the second swap, no failure before the third and no drop before the fourth. */
  lemma SnapshotExact(s: State, a: seq<Step>, b: seq<Step>, c: seq<Step>)
    requires s.resetter.Idle? && Quiet(a) && Quiet(b) && Quiet(c)
    requires CanRun(s, OneReset(a, b, c))
    ensures After(s, OneReset(a, b, c)).lines == s.lines + [s.live] <==>
              && Ends(a, Passed) == 0
              && Ends(a + b, FailedOut) == 0
              && Ends(a + b + c, DroppedOut) == 0
  {
    LineExact(s, a, b, c);
    EndsAppend(a, b, FailedOut);
    EndsAppend(a, b, DroppedOut);
    EndsAppend(a + b, c, DroppedOut);
    var lines := After(s, OneReset(a, b, c)).lines;
    assert lines[|s.lines|] == lines[|lines| - 1];
    assert (s.lines + [s.live])[|s.lines|] == s.live;
  }

  lemma {:induction false} EndsAppend(a: seq<Step>, b: seq<Step>, kind: Kind)
    ensures Ends(a + b, kind) == Ends(a, kind) + Ends(b, kind)
  {
    if a == [] {
      assert a + b == b;
    } else {
      assert (a + b)[1..] == a[1..] + b;
      EndsAppend(a[1..], b, kind);
    }
  }

  // ------------------------------------------------- http/breaker: metric in a lock

  datatype Counting = Counting(ok: int, fail: int, reject: int, errs: int, unknown: int)

  const NOTHING := Counting(0, 0, 0, 0, 0)

  /** The five ways a request can end. */
  datatype Outcome = IsOk | IsFail | IsReject | IsErr | IsUnknown

  /** The status switch of runRequests; no status stands for a failed request. */
  datatype Response = NoResponse | Status(code: int)

  function Classify(r: Response): Outcome {
    match r
    case NoResponse => IsErr
    case Status(code) =>
      if code == 200 then IsOk
      else if code == 500 then IsFail
      else if code == 503 then IsReject
      else IsUnknown
  }

  /** The add methods as they are written: addFail and addReject count an ok. */
  function Add(c: Counting, o: Outcome): Counting {
    match o
    case IsErr => c.(errs := c.errs + 1)
    case IsUnknown => c.(unknown := c.unknown + 1)
    case _ => c.(ok := c.ok + 1)
  }

  class Metric {
    var counting: Counting

    constructor ()
      ensures counting == NOTHING
    {
      counting := NOTHING;
    }

    /** What the goroutine of one request does with its response. */
    method Record(r: Response)
      modifies this
      ensures counting == Add(old(counting), Classify(r))
      ensures r == Status(200) || r == Status(500) || r == Status(503) ==>
                counting == old(counting).(ok := old(counting.ok) + 1)
      ensures r == NoResponse ==> counting == old(counting).(errs := old(counting.errs) + 1)
      ensures r.Status? && r.code != 200 && r.code != 500 && r.code != 503 ==>
                counting == old(counting).(unknown := old(counting.unknown) + 1)
    {
      if r.NoResponse? {
        counting := counting.(errs := counting.errs + 1);
      } else if r.code == 200 {
        counting := counting.(ok := counting.ok + 1);
      } else if r.code == 500 {
        counting := counting.(ok := counting.ok + 1);
      } else if r.code == 503 {
        counting := counting.(ok := counting.ok + 1);
      } else {
        counting := counting.(unknown := counting.unknown + 1);
      }
    }

    method Reset() returns (result: Counting)
      modifies this
      ensures result == old(counting) && counting == NOTHING
    {
      result := counting;
      counting := NOTHING;
    }
  }

  /** A run of the metric: responses recorded, and resets that report. */
  datatype Event = Record(response: Response) | Collect

  datatype Metrics = Metrics(live: Counting, reports: seq<Counting>)

  function Handle(m: Metrics, e: Event): Metrics {
    match e
    case Record(r) => m.(live := Add(m.live, Classify(r)))
    case Collect => Metrics(NOTHING, m.reports + [m.live])
  }

  function HandleAll(events: seq<Event>): Metrics {
    if events == [] then Metrics(NOTHING, [])
    else Handle(HandleAll(events[..|events| - 1]), events[|events| - 1])
  }

  /** How many responses of the run were classified as o. */
  function Seen(events: seq<Event>, o: Outcome): nat {
    if events == [] then 0
    else
      var e := events[|events| - 1];
      Seen(events[..|events| - 1], o) + if e.Record? && Classify(e.response) == o then 1 else 0
  }

  /** All reports added up, column by column. */
  function Totals(reports: seq<Counting>): Counting {
    if reports == [] then NOTHING
    else
      var t, c := Totals(reports[..|reports| - 1]), reports[|reports| - 1];
      Counting(t.ok + c.ok, t.fail + c.fail, t.reject + c.reject, t.errs + c.errs, t.unknown + c.unknown)
  }

  /** The metric loses nothing: reports plus live counters hold every recorded
      response. Failures and rejections all end up in the ok column; the fail and
      reject columns of every report are 0. */
  lemma {:induction false} MetricConserves(events: seq<Event>)
    ensures var m := HandleAll(events);
            && Totals(m.reports).ok + m.live.ok
               == Seen(events, IsOk) + Seen(events, IsFail) + Seen(events, IsReject)
            && Totals(m.reports).errs + m.live.errs == Seen(events, IsErr)
            && Totals(m.reports).unknown + m.live.unknown == Seen(events, IsUnknown)
            && m.live.fail == 0 && m.live.reject == 0
            && forall i :: 0 <= i < |m.reports| ==> m.reports[i].fail == 0 && m.reports[i].reject == 0
    decreases |events|
  {
    if events != [] {
      var before := HandleAll(events[..|events| - 1]);
      MetricConserves(events[..|events| - 1]);
      if events[|events| - 1].Collect? {
        assert HandleAll(events).reports[..|before.reports|] == before.reports;
      }
    }
  }

  /** How many requests of the run got this response. */
  function Got(events: seq<Event>, r: Response): nat {
    if events == [] then 0
    else Got(events[..|events| - 1], r) + if events[|events| - 1] == Record(r) then 1 else 0
  }

  function AllRecords(events: seq<Event>): nat {
    if events == [] then 0
    else AllRecords(events[..|events| - 1]) + if events[|events| - 1].Record? then 1 else 0
  }

  lemma {:induction false} SeenByStatus(events: seq<Event>)
    ensures Seen(events, IsOk) == Got(events, Status(200)) && Seen(events, IsFail) == Got(events, Status(500))
    ensures Seen(events, IsReject) == Got(events, Status(503)) && Seen(events, IsErr) == Got(events, NoResponse)
    ensures AllRecords(events) == Seen(events, IsOk) + Seen(events, IsFail) + Seen(events, IsReject)
                                  + Seen(events, IsErr) + Seen(events, IsUnknown)
    decreases |events|
  {
    if events != [] {
      SeenByStatus(events[..|events| - 1]);
    }
  }

  /** The columns by status: 200, 500 and 503 are all in the ok column, requests without a
      response in the errs column, all others in the unknown column. */
  lemma ColumnsByStatus(events: seq<Event>)
    ensures var m := HandleAll(events);
            && Totals(m.reports).ok + m.live.ok
               == Got(events, Status(200)) + Got(events, Status(500)) + Got(events, Status(503))
            && Totals(m.reports).errs + m.live.errs == Got(events, NoResponse)
            && Totals(m.reports).unknown + m.live.unknown
               == AllRecords(events) - Got(events, Status(200)) - Got(events, Status(500)) - Got(events, Status(503))
                  - Got(events, NoResponse)
  {
    MetricConserves(events);
    SeenByStatus(events);
  }

  /** The ok column counts the ok responses exactly when nothing failed or was
      rejected. */
  lemma OkColumnExact(events: seq<Event>)
    ensures var m := HandleAll(events);
            Totals(m.reports).ok + m.live.ok == Seen(events, IsOk)
            <==> Seen(events, IsFail) == 0 && Seen(events, IsReject) == 0
  {
    MetricConserves(events);
  }
}
