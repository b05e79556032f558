/** The load generator: the ramp of request batches, the requests themselves as a step
    machine over the shared gauge, index and averages, and the window reductions. */
module LoadGenerator {
  import opened Sums

  // ------------------------------------------------------------------- the ramp

  const FACTOR := 5

  /** Requests of one batch. */
  function BatchSize(i: int): int {
    (i + 1) * FACTOR
  }

  /** The two loops of the schedule: up from 0 to seconds - 1, then down from seconds
      to 1. */
  method Ramp(seconds: int) returns (issued: int, batches: int)
    ensures seconds >= 0 ==> issued == 5 * seconds * (seconds + 2) && batches == 2 * seconds
    ensures seconds < 0 ==> issued == 0 && batches == 0
  {
    issued, batches := 0, 0;
    var i := 0;
    while i < seconds
      invariant 0 <= i && (seconds >= 0 ==> i <= seconds) && (seconds < 0 ==> i == 0)
      invariant batches == i && 2 * issued == 5 * i * (i + 1)
    {
      var requests := BatchSize(i);
      var j := 0;
      ghost var before := issued;
      while j < requests
        invariant 0 <= j <= requests && issued == before + j
      {
        issued, j := issued + 1, j + 1;
      }
      batches, i := batches + 1, i + 1;
    }
    i := seconds;
    while i > 0
      invariant seconds >= 0 ==> 0 <= i <= seconds
      invariant seconds >= 0 ==> batches == 2 * seconds - i
      invariant seconds >= 0 ==>
                  2 * issued == 5 * seconds * (seconds + 1) + 5 * (seconds * (seconds + 3) - i * (i + 3))
      invariant seconds < 0 ==> i == seconds && issued == 0 && batches == 0
    {
      var requests := BatchSize(i);
      var j := 0;
      ghost var before := issued;
      while j < requests
        invariant 0 <= j <= requests && issued == before + j
      {
        issued, j := issued + 1, j + 1;
      }
      batches, i := batches + 1, i - 1;
    }
  }

  // ------------------------------------------------------------- machine integers

  const TWO_64: nat := 0x1_0000_0000_0000_0000
  const TWO_32: nat := 0x1_0000_0000
  const MAX_INT32: nat := 0x7FFF_FFFF

  /** atomic.AddUint64. */
  function AddUint64(x: nat, d: nat): (r: nat)
    ensures r < TWO_64
  {
    (x + d) % TWO_64
  }

  /** atomic.AddInt32(&index, 1): two's complement wrap-around. */
  function NextInt32(x: int): int {
    if x == MAX_INT32 then x + 1 - TWO_32 else x + 1
  }

  // ------------------------------------------------------------ one request's path

  /** Where a request goroutine stands in issueRequest; v and v1 are the gauge values
      it read at its increment and its decrement. */
  datatype Phase =
    | Spawned
    | Indexed(idx: int)
    | Flying(v: nat)
    | AggressiveDone(v: nat)
    | Working
    | Landed(v1: int)
    | LazyDone(v1: int)
    | Logging
    | Done

  /** The shared variables. `peak` is history: the largest gauge value ever returned by
      an increment; `ups` and `downs` list what increments and decrements of the gauge
      returned, `taken` the indices in the order they were drawn, and the last three
      fields the gauge values that went into each average. */
  datatype State = State(
    reqs: seq<Phase>,
    flying: nat,
    index: int,
    aggressive: real,
    lazy: real,
    both: real,
    wg: int,
    released: bool,
    peak: nat,
    ups: seq<int>,
    downs: seq<int>,
    taken: seq<int>,
    intoAggressive: seq<int>,
    intoLazy: seq<int>,
    intoBoth: seq<int>)

  datatype Step = Spawn | Advance(req: nat) | Release

  const BETA := 0.9

  function Average(avg: real, v: int): real {
    avg * BETA + (v as real) * (1.0 - BETA)
  }

  function Init(): State {
    State([], 0, 0, 0.0, 0.0, 0.0, 0, false, 0, [], [], [], [], [], [])
  }

  /** `total` requests are issued in all; main waits once it has issued them. */
  predicate Enabled(total: nat, s: State, step: Step) {
    match step
    case Spawn => !s.released && |s.reqs| < total
    case Advance(i) => i < |s.reqs| && !s.reqs[i].Done?
    case Release => !s.released && |s.reqs| == total && s.wg == 0
  }

  function Apply(total: nat, s: State, step: Step): State
    requires Enabled(total, s, step)
  {
    match step
    case Spawn => s.(reqs := s.reqs + [Spawned], wg := s.wg + 1)
    case Release => s.(released := true)
    case Advance(i) => Move(s, i)
  }

  /** One atomic action of request i. The job and the two window updates leave the
      variables of this machine alone. */
  function Move(s: State, i: nat): State
    requires i < |s.reqs| && !s.reqs[i].Done?
  {
    match s.reqs[i]
    case Spawned =>
      var idx := NextInt32(s.index);
      s.(reqs := s.reqs[i := Indexed(idx)], index := idx, taken := s.taken + [idx])
    case Indexed(_) =>
      var v := AddUint64(s.flying, 1);
      s.(reqs := s.reqs[i := Flying(v)], flying := v, peak := if v > s.peak then v else s.peak, ups := s.ups + [v])
    case Flying(v) =>
      s.(reqs := s.reqs[i := AggressiveDone(v)], aggressive := Average(s.aggressive, v),
         intoAggressive := s.intoAggressive + [v])
    case AggressiveDone(v) =>
      s.(reqs := s.reqs[i := Working], both := Average(s.both, v), intoBoth := s.intoBoth + [v])
    case Working =>
      var v1 := AddUint64(s.flying, TWO_64 - 1);
      s.(reqs := s.reqs[i := Landed(v1)], flying := v1, downs := s.downs + [v1])
    case Landed(v1) =>
      s.(reqs := s.reqs[i := LazyDone(v1)], lazy := Average(s.lazy, v1), intoLazy := s.intoLazy + [v1])
    case LazyDone(v1) =>
      s.(reqs := s.reqs[i := Logging], both := Average(s.both, v1), intoBoth := s.intoBoth + [v1])
    case Logging =>
      s.(reqs := s.reqs[i := Done], wg := s.wg - 1)
  }

  predicate CanRun(total: nat, s: State, steps: seq<Step>)
    decreases |steps|
  {
    steps == [] || (Enabled(total, s, steps[0]) && CanRun(total, Apply(total, s, steps[0]), steps[1..]))
  }

  function After(total: nat, s: State, steps: seq<Step>): State
    requires CanRun(total, s, steps)
    decreases |steps|
  {
    if steps == [] then s else After(total, Apply(total, s, steps[0]), steps[1..])
  }

  ghost predicate Reachable(total: nat, s: State) {
    exists steps :: CanRun(total, Init(), steps) && After(total, Init(), steps) == s
  }

  // ------------------------------------------------------------------- counting

  predicate InFlight(p: Phase) {
    p.Flying? || p.AggressiveDone? || p.Working?
  }

  predicate Unfinished(p: Phase) {
    !p.Done?
  }

  predicate HasIndex(p: Phase) {
    !p.Spawned?
  }

  predicate InAggressive(p: Phase) {
    !p.Spawned? && !p.Indexed? && !p.Flying?
  }

  predicate InBoth(p: Phase) {
    InAggressive(p) && !p.AggressiveDone?
  }

  predicate InLazy(p: Phase) {
    p.LazyDone? || p.Logging? || p.Done?
  }

  predicate InBothAgain(p: Phase) {
    p.Logging? || p.Done?
  }

  function Count(reqs: seq<Phase>, pred: Phase -> bool): nat {
    if reqs == [] then 0
    else Count(reqs[..|reqs| - 1], pred) + if pred(reqs[|reqs| - 1]) then 1 else 0
  }

  lemma {:induction false} CountUpdate(reqs: seq<Phase>, pred: Phase -> bool, i: nat, p: Phase)
    requires i < |reqs|
    ensures Count(reqs[i := p], pred)
         == Count(reqs, pred) - (if pred(reqs[i]) then 1 else 0) + (if pred(p) then 1 else 0)
  {
    var n := |reqs| - 1;
    if i == n {
      assert reqs[i := p][..n] == reqs[..n];
    } else {
      assert reqs[i := p][..n] == reqs[..n][i := p];
      CountUpdate(reqs[..n], pred, i, p);
    }
  }

  lemma {:induction false} CountBounds(reqs: seq<Phase>, pred: Phase -> bool, i: nat)
    requires i < |reqs|
    ensures (if pred(reqs[i]) then 1 else 0) <= Count(reqs, pred) <= |reqs|
  {
    var n := |reqs| - 1;
    if i < n {
      CountBounds(reqs[..n], pred, i);
    } else if n > 0 {
      CountBounds(reqs[..n], pred, 0);
    }
  }

  lemma {:induction false} CountNone(reqs: seq<Phase>, pred: Phase -> bool)
    ensures Count(reqs, pred) == 0 <==> forall i :: 0 <= i < |reqs| ==> !pred(reqs[i])
  {
    if reqs != [] {
      var n := |reqs| - 1;
      CountNone(reqs[..n], pred);
      assert forall i :: 0 <= i < n ==> reqs[..n][i] == reqs[i];
    }
  }

  // ------------------------------------------------------------------ invariant

  /** Gauge values a request carries never exceed the peak; after its own decrement
      they stay below it. */
  predicate PhaseOk(p: Phase, peak: nat) {
    && (p.Flying? || p.AggressiveDone? ==> 1 <= p.v <= peak)
    && (p.Working? ==> 1 <= peak)
    && (p.Landed? || p.LazyDone? ==> 0 <= p.v1 <= peak - 1)
    && (p.Logging? || p.Done? ==> 1 <= peak)
  }

  function Below(peak: nat): int {
    if peak == 0 then 0 else peak - 1
  }

  predicate AveragesOk(s: State) {
    && 0.0 <= s.aggressive <= s.peak as real
    && 0.0 <= s.both <= s.peak as real
    && 0.0 <= s.lazy <= Below(s.peak) as real
  }

  predicate Inv(total: nat, s: State) {
    && |s.reqs| <= total
    && s.flying == Count(s.reqs, InFlight) <= s.peak
    && s.wg == Count(s.reqs, Unfinished)
    && (s.released ==> |s.reqs| == total && s.wg == 0)
    && (forall i :: 0 <= i < |s.reqs| ==> PhaseOk(s.reqs[i], s.peak))
    && AveragesOk(s)
    && IndicesOk(s)
    && WeightsOk(s)
  }

  function Power(x: real, n: nat): real {
    if n == 0 then 1.0 else x * Power(x, n - 1)
  }

  /** The exponentially weighted average in closed form: the value that is k updates old
      has weight (1 - BETA) * BETA^k. */
  function Weighted(values: seq<int>): real {
    if values == [] then 0.0
    else (1.0 - BETA) * Power(BETA, |values| - 1) * values[0] as real + Weighted(values[1..])
  }

  /** Each average is the weighted average of what the requests have put in: every
      request its value at the increment (aggressive, both) and at the decrement (lazy,
      both). */
  predicate WeightsOk(s: State) {
    && s.aggressive == Weighted(s.intoAggressive)
    && s.lazy == Weighted(s.intoLazy)
    && s.both == Weighted(s.intoBoth)
    && |s.intoAggressive| == Count(s.reqs, InAggressive)
    && |s.intoLazy| == Count(s.reqs, InLazy)
    && |s.intoBoth| == Count(s.reqs, InBoth) + Count(s.reqs, InBothAgain)
  }

  /** One update of the average: nine tenths of the old value and a tenth of the new. */
  lemma {:induction false} WeightedSnoc(values: seq<int>, v: int)
    ensures Weighted(values + [v]) == Average(Weighted(values), v)
    ensures Weighted(values + [v]) == 0.9 * Weighted(values) + 0.1 * v as real
  {
    if values == [] {
      assert (values + [v])[1..] == [];
    } else {
      var n := |values|;
      assert (values + [v])[1..] == values[1..] + [v];
      WeightedSnoc(values[1..], v);
      assert Power(BETA, n) == BETA * Power(BETA, n - 1);
      ScaleHead(Power(BETA, n - 1), values[0] as real, Weighted(values[1..]), v);
    }
  }

  lemma ScaleHead(p: real, x: real, tail: real, v: int)
    ensures (1.0 - BETA) * (BETA * p) * x + Average(tail, v) == Average((1.0 - BETA) * p * x + tail, v)
  {
    assert (1.0 - BETA) * (BETA * p) * x == ((1.0 - BETA) * p * x) * BETA;
  }

  lemma MoveWeights(s: State, i: nat)
    requires WeightsOk(s) && i < |s.reqs| && !s.reqs[i].Done?
    ensures WeightsOk(Move(s, i))
  {
    var p := Move(s, i).reqs[i];
    assert Move(s, i).reqs == s.reqs[i := p];
    CountUpdate(s.reqs, InAggressive, i, p);
    CountUpdate(s.reqs, InLazy, i, p);
    CountUpdate(s.reqs, InBoth, i, p);
    CountUpdate(s.reqs, InBothAgain, i, p);
    match s.reqs[i]
    case Flying(v) => WeightedSnoc(s.intoAggressive, v);
    case AggressiveDone(v) => WeightedSnoc(s.intoBoth, v);
    case Landed(v1) => WeightedSnoc(s.intoLazy, v1);
    case LazyDone(v1) => WeightedSnoc(s.intoBoth, v1);
    case _ =>
  }

  /** The value of an int32 counter after n increments from 0. */
  function Wrapped(n: nat): int {
    (n + TWO_32 / 2) % TWO_32 - TWO_32 / 2
  }

  /** Every request past its first action drew the next counter value. */
  predicate IndicesOk(s: State) {
    && |s.taken| == Count(s.reqs, HasIndex)
    && s.index == Wrapped(|s.taken|)
    && forall k :: 0 <= k < |s.taken| ==> s.taken[k] == Wrapped(k + 1)
  }

  lemma AverageStays(avg: real, v: int, lo: real, hi: real)
    requires lo <= avg <= hi && lo <= v as real <= hi
    ensures lo <= Average(avg, v) <= hi
  {
  }

  lemma SpawnKeeps(total: nat, s: State)
    requires Inv(total, s) && Enabled(total, s, Spawn)
    ensures Inv(total, Apply(total, s, Spawn))
  {
    assert (s.reqs + [Spawned])[..|s.reqs|] == s.reqs;
  }

  /** The add of 2^64 - 1 is a decrement by one, because the request itself is still
      counted; and the increment cannot wrap below 2^64 requests. */
  lemma GaugeMoves(total: nat, s: State, i: nat)
    requires Inv(total, s) && total < TWO_64 && i < |s.reqs|
    ensures s.reqs[i].Indexed? ==> AddUint64(s.flying, 1) == s.flying + 1
    ensures s.reqs[i].Working? ==> s.flying >= 1 && AddUint64(s.flying, TWO_64 - 1) == s.flying - 1
  {
    CountBounds(s.reqs, InFlight, i);
    AddFacts(s.flying);
    if s.reqs[i].Indexed? {
      CountUpdate(s.reqs, InFlight, i, Working);
      CountBounds(s.reqs[i := Working], InFlight, i);
    }
  }

  lemma AddFacts(x: nat)
    ensures x + 1 < TWO_64 ==> AddUint64(x, 1) == x + 1
    ensures 1 <= x < TWO_64 ==> AddUint64(x, TWO_64 - 1) == x - 1
  {
    if 1 <= x < TWO_64 {
      assert x + (TWO_64 - 1) == (x - 1) + TWO_64;
    }
  }

  lemma MoveCounts(total: nat, s: State, i: nat)
    requires Inv(total, s) && total < TWO_64 && i < |s.reqs| && !s.reqs[i].Done?
    ensures var t := Move(s, i);
            t.flying == Count(t.reqs, InFlight) && t.wg == Count(t.reqs, Unfinished)
            && t.flying <= t.peak && t.peak >= s.peak
  {
    var p := Move(s, i).reqs[i];
    assert Move(s, i).reqs == s.reqs[i := p];
    CountUpdate(s.reqs, InFlight, i, p);
    CountUpdate(s.reqs, Unfinished, i, p);
    GaugeMoves(total, s, i);
  }

  lemma MoveAverages(total: nat, s: State, i: nat)
    requires Inv(total, s) && total < TWO_64 && i < |s.reqs| && !s.reqs[i].Done?
    ensures AveragesOk(Move(s, i)) && PhaseOk(Move(s, i).reqs[i], Move(s, i).peak)
  {
    GaugeMoves(total, s, i);
    match s.reqs[i]
    case Flying(v) => AverageStays(s.aggressive, v, 0.0, s.peak as real);
    case AggressiveDone(v) => AverageStays(s.both, v, 0.0, s.peak as real);
    case Landed(v1) => AverageStays(s.lazy, v1, 0.0, Below(s.peak) as real);
    case LazyDone(v1) => AverageStays(s.both, v1, 0.0, s.peak as real);
    case _ =>
  }

  lemma NextIndex(n: nat)
    ensures NextInt32(Wrapped(n)) == Wrapped(n + 1)
  {
  }

  lemma MoveIndices(s: State, i: nat)
    requires IndicesOk(s) && i < |s.reqs| && !s.reqs[i].Done?
    ensures IndicesOk(Move(s, i))
  {
    var p := Move(s, i).reqs[i];
    assert Move(s, i).reqs == s.reqs[i := p];
    CountUpdate(s.reqs, HasIndex, i, p);
    NextIndex(|s.taken|);
  }

  lemma MoveKeeps(total: nat, s: State, i: nat)
    requires Inv(total, s) && total < TWO_64 && i < |s.reqs| && !s.reqs[i].Done?
    ensures Inv(total, Move(s, i))
  {
    MoveCounts(total, s, i);
    MoveAverages(total, s, i);
    MoveIndices(s, i);
    MoveWeights(s, i);
    if s.released {
      CountBounds(s.reqs, Unfinished, i);
    }
  }

  lemma {:induction false} RunKeeps(total: nat, s: State, steps: seq<Step>)
    requires Inv(total, s) && total < TWO_64 && CanRun(total, s, steps)
    ensures Inv(total, After(total, s, steps))
    decreases |steps|
  {
    if steps != [] {
      match steps[0] {
        case Spawn => SpawnKeeps(total, s);
        case Advance(i) => MoveKeeps(total, s, i);
        case Release =>
      }
      RunKeeps(total, Apply(total, s, steps[0]), steps[1..]);
    }
  }

  // -------------------------------------------------------------------- theorems

  /** In every interleaving of fewer than 2^64 requests: the gauge is the number of
      requests between their increment and their decrement, so it never wraps; the
      averages stay between 0 and the peak, the lazy one below it, and are the weighted
      averages of the values the requests put in; the wait group counts the unfinished
      requests. */
  lemma GaugeAndAverages(total: nat, s: State)
    requires total < 18446744073709551616 && Reachable(total, s)
    ensures s.flying == Count(s.reqs, InFlight) <= s.peak
    ensures 0.0 <= s.aggressive <= s.peak as real && 0.0 <= s.both <= s.peak as real
    ensures 0.0 <= s.lazy <= (if s.peak == 0 then 0 else s.peak - 1) as real
    ensures s.wg == Count(s.reqs, Unfinished) >= 0
    ensures s.aggressive == Weighted(s.intoAggressive) && s.lazy == Weighted(s.intoLazy)
    ensures s.both == Weighted(s.intoBoth)
  {
    var steps :| CanRun(total, Init(), steps) && After(total, Init(), steps) == s;
    RunKeeps(total, Init(), steps);
  }

  /** When the wait group lets main go, all requests have been issued and finished and
      the gauge is back at 0; each average has taken one value per request, the combined
      one two. The indices drawn are 1, 2, ... up to the total, each
      once, exactly when the total fits in an int32. */
  lemma AllLandedAtRelease(total: nat, s: State)
    requires total < TWO_64 && Reachable(total, s) && s.released
    ensures |s.reqs| == total && forall i :: 0 <= i < total ==> s.reqs[i].Done?
    ensures s.flying == 0
    ensures |s.intoAggressive| == |s.intoLazy| == total && |s.intoBoth| == 2 * total
    ensures |s.taken| == total
    ensures (forall k :: 0 <= k < total ==> s.taken[k] == k + 1) <==> total <= MAX_INT32
  {
    var steps :| CanRun(total, Init(), steps) && After(total, Init(), steps) == s;
    RunKeeps(total, Init(), steps);
    CountNone(s.reqs, Unfinished);
    CountNone(s.reqs, InFlight);
    CountAll(s.reqs, HasIndex);
    CountAll(s.reqs, InAggressive);
    CountAll(s.reqs, InLazy);
    CountAll(s.reqs, InBoth);
    CountAll(s.reqs, InBothAgain);
    if total > MAX_INT32 {
      assert s.taken[MAX_INT32] == Wrapped(MAX_INT32 + 1) != MAX_INT32 + 1;
    }
  }

  /** For the ramp of a given duration the indices are 1, 2, ... exactly up to a
      duration of 20723 seconds; the default is 400. */
  lemma RampIndices(seconds: nat, s: State)
    requires 5 * seconds * (seconds + 2) < TWO_64
    requires Reachable(5 * seconds * (seconds + 2), s) && s.released
    ensures |s.taken| == 5 * seconds * (seconds + 2)
    ensures (forall k :: 0 <= k < |s.taken| ==> s.taken[k] == k + 1) <==> seconds <= 20723
  {
    AllLandedAtRelease(5 * seconds * (seconds + 2), s);
    TotalFits(seconds);
  }

  lemma TotalFits(seconds: nat)
    ensures 5 * seconds * (seconds + 2) <= MAX_INT32 <==> seconds <= 20723
  {
    if seconds <= 20723 {
      ProductMonotone(seconds, 20723, seconds + 2, 20725);
    } else {
      ProductMonotone(20724, seconds, 20726, seconds + 2);
    }
  }

  lemma ProductMonotone(a: nat, b: nat, c: nat, d: nat)
    requires a <= b && c <= d
    ensures a * c <= b * d
  {
    assert b * d - a * c == (b - a) * d + a * (d - c);
  }

  // ------------------------------------------------- which values were averaged

  /** The value of its increment that a request has not yet put into the aggressive
      average, that of its decrement not yet in the lazy one, and either not yet in the
      combined one. */
  function OwedAggressive(p: Phase): multiset<int> {
    if p.Flying? then multiset{p.v} else multiset{}
  }

  function OwedLazy(p: Phase): multiset<int> {
    if p.Landed? then multiset{p.v1} else multiset{}
  }

  function OwedBoth(p: Phase): multiset<int> {
    if p.Flying? || p.AggressiveDone? then multiset{p.v}
    else if p.Landed? || p.LazyDone? then multiset{p.v1}
    else multiset{}
  }

  function Owed(reqs: seq<Phase>, owes: Phase -> multiset<int>): multiset<int> {
    if reqs == [] then multiset{} else Owed(reqs[..|reqs| - 1], owes) + owes(reqs[|reqs| - 1])
  }

  lemma {:induction false} OwedUpdate(reqs: seq<Phase>, owes: Phase -> multiset<int>, i: nat, p: Phase)
    requires i < |reqs|
    ensures Owed(reqs[i := p], owes) + owes(reqs[i]) == Owed(reqs, owes) + owes(p)
  {
    var n := |reqs| - 1;
    if i == n {
      assert reqs[i := p][..n] == reqs[..n];
    } else {
      assert reqs[i := p][..n] == reqs[..n][i := p];
      OwedUpdate(reqs[..n], owes, i, p);
      AddLast(Owed(reqs[..n][i := p], owes), owes(reqs[i]), Owed(reqs[..n], owes), owes(p), owes(reqs[n]));
    }
  }

  lemma AddLast(a: multiset<int>, b: multiset<int>, c: multiset<int>, d: multiset<int>, last: multiset<int>)
    requires a + b == c + d
    ensures (a + last) + b == (c + last) + d
  {
    assert (a + last) + b == (a + b) + last;
  }

  lemma {:induction false} OwedNothing(reqs: seq<Phase>, owes: Phase -> multiset<int>)
    requires forall i :: 0 <= i < |reqs| ==> owes(reqs[i]) == multiset{}
    ensures Owed(reqs, owes) == multiset{}
  {
    if reqs != [] {
      OwedNothing(reqs[..|reqs| - 1], owes);
    }
  }

  /** The values averaged are those the gauge returned, each once: the increments' in the
      aggressive average, the decrements' in the lazy one, all of them in the combined
      one, less what requests still hold. The peak is the largest one returned. */
  predicate ValuesOk(s: State) {
    && multiset(s.intoAggressive) + Owed(s.reqs, OwedAggressive) == multiset(s.ups)
    && multiset(s.intoLazy) + Owed(s.reqs, OwedLazy) == multiset(s.downs)
    && multiset(s.intoBoth) + Owed(s.reqs, OwedBoth) == multiset(s.ups) + multiset(s.downs)
    && PeakOk(s)
  }

  predicate PeakOk(s: State) {
    (forall k :: 0 <= k < |s.ups| ==> s.ups[k] <= s.peak) && (s.peak > 0 ==> s.peak in s.ups)
  }

  lemma MovePeak(s: State, i: nat)
    requires PeakOk(s) && i < |s.reqs| && !s.reqs[i].Done?
    ensures PeakOk(Move(s, i))
  {
    var t := Move(s, i);
    if s.reqs[i].Indexed? {
      assert t.ups[|s.ups|] == t.reqs[i].v;
    }
  }

  /** What a request takes from the gauge or puts into an average keeps the balance. */
  lemma Balanced(reqs: seq<Phase>, owes: Phase -> multiset<int>, i: nat, p: Phase,
                 into: seq<int>, into2: seq<int>, returned: multiset<int>, returned2: multiset<int>)
    requires i < |reqs| && multiset(into) + Owed(reqs, owes) == returned
    requires multiset(into2) + owes(p) + returned == multiset(into) + owes(reqs[i]) + returned2
    ensures multiset(into2) + Owed(reqs[i := p], owes) == returned2
  {
    var a, b, was, now := multiset(into), multiset(into2), Owed(reqs, owes), Owed(reqs[i := p], owes);
    OwedUpdate(reqs, owes, i, p);
    forall x: int ensures (b + now)[x] == returned2[x] {
      assert (b + owes(p) + returned)[x] == (a + owes(reqs[i]) + returned2)[x];
      assert (now + owes(reqs[i]))[x] == (was + owes(p))[x];
      assert (a + was)[x] == returned[x];
    }
  }

  lemma MoveIntoAggressive(s: State, i: nat)
    requires multiset(s.intoAggressive) + Owed(s.reqs, OwedAggressive) == multiset(s.ups)
    requires i < |s.reqs| && !s.reqs[i].Done?
    ensures var t := Move(s, i); multiset(t.intoAggressive) + Owed(t.reqs, OwedAggressive) == multiset(t.ups)
  {
    var t := Move(s, i);
    assert t.reqs == s.reqs[i := t.reqs[i]];
    Balanced(s.reqs, OwedAggressive, i, t.reqs[i], s.intoAggressive, t.intoAggressive, multiset(s.ups), multiset(t.ups));
  }

  lemma MoveIntoLazy(s: State, i: nat)
    requires multiset(s.intoLazy) + Owed(s.reqs, OwedLazy) == multiset(s.downs)
    requires i < |s.reqs| && !s.reqs[i].Done?
    ensures var t := Move(s, i); multiset(t.intoLazy) + Owed(t.reqs, OwedLazy) == multiset(t.downs)
  {
    var t := Move(s, i);
    assert t.reqs == s.reqs[i := t.reqs[i]];
    Balanced(s.reqs, OwedLazy, i, t.reqs[i], s.intoLazy, t.intoLazy, multiset(s.downs), multiset(t.downs));
  }

  lemma BothExchange(s: State, i: nat)
    requires i < |s.reqs| && !s.reqs[i].Done?
    ensures var t := Move(s, i);
            multiset(t.intoBoth) + OwedBoth(t.reqs[i]) + (multiset(s.ups) + multiset(s.downs)) ==
            multiset(s.intoBoth) + OwedBoth(s.reqs[i]) + (multiset(t.ups) + multiset(t.downs))
  {
    var t := Move(s, i);
    match s.reqs[i]
    case Indexed(_) => assert multiset(t.ups) == multiset(s.ups) + OwedBoth(t.reqs[i]);
    case Working => assert multiset(t.downs) == multiset(s.downs) + OwedBoth(t.reqs[i]);
    case AggressiveDone(v) => assert multiset(t.intoBoth) == multiset(s.intoBoth) + OwedBoth(s.reqs[i]);
    case LazyDone(v1) => assert multiset(t.intoBoth) == multiset(s.intoBoth) + OwedBoth(s.reqs[i]);
    case _ =>
  }

  lemma MoveIntoBoth(s: State, i: nat)
    requires multiset(s.intoBoth) + Owed(s.reqs, OwedBoth) == multiset(s.ups) + multiset(s.downs)
    requires i < |s.reqs| && !s.reqs[i].Done?
    ensures var t := Move(s, i);
            multiset(t.intoBoth) + Owed(t.reqs, OwedBoth) == multiset(t.ups) + multiset(t.downs)
  {
    var t := Move(s, i);
    assert t.reqs == s.reqs[i := t.reqs[i]];
    BothExchange(s, i);
    Balanced(s.reqs, OwedBoth, i, t.reqs[i], s.intoBoth, t.intoBoth,
             multiset(s.ups) + multiset(s.downs), multiset(t.ups) + multiset(t.downs));
  }

  lemma MoveValues(s: State, i: nat)
    requires ValuesOk(s) && i < |s.reqs| && !s.reqs[i].Done?
    ensures ValuesOk(Move(s, i))
  {
    MoveIntoAggressive(s, i);
    MoveIntoLazy(s, i);
    MoveIntoBoth(s, i);
    MovePeak(s, i);
  }

  lemma {:induction false} RunValues(total: nat, s: State, steps: seq<Step>)
    requires ValuesOk(s) && CanRun(total, s, steps)
    ensures ValuesOk(After(total, s, steps))
    decreases |steps|
  {
    if steps != [] {
      match steps[0] {
        case Spawn => assert (s.reqs + [Spawned])[..|s.reqs|] == s.reqs;
        case Advance(i) => MoveValues(s, i);
        case Release =>
      }
      RunValues(total, Apply(total, s, steps[0]), steps[1..]);
    }
  }

  /** In every interleaving the averages take the values the gauge returned, each once. */
  lemma AveragedValues(total: nat, s: State)
    requires Reachable(total, s)
    ensures multiset(s.intoAggressive) + Owed(s.reqs, OwedAggressive) == multiset(s.ups)
    ensures multiset(s.intoLazy) + Owed(s.reqs, OwedLazy) == multiset(s.downs)
    ensures multiset(s.intoBoth) + Owed(s.reqs, OwedBoth) == multiset(s.ups) + multiset(s.downs)
    ensures (forall k :: 0 <= k < |s.ups| ==> s.ups[k] <= s.peak) && (s.peak > 0 ==> s.peak in s.ups)
  {
    var steps :| CanRun(total, Init(), steps) && After(total, Init(), steps) == s;
    RunValues(total, Init(), steps);
  }

  /** What the gauge returns is the number of requests in flight just after that action;
      nothing else adds to either list. */
  lemma ReturnsInFlight(total: nat, s: State, step: Step)
    requires total < 18446744073709551616 && Reachable(total, s) && Enabled(total, s, step)
    ensures var t := Apply(total, s, step);
            && t.ups == s.ups + (if step.Advance? && s.reqs[step.req].Indexed? then [Count(t.reqs, InFlight)] else [])
            && t.downs == s.downs + (if step.Advance? && s.reqs[step.req].Working? then [Count(t.reqs, InFlight)] else [])
  {
    var steps :| CanRun(total, Init(), steps) && After(total, Init(), steps) == s;
    RunKeeps(total, Init(), steps);
    if step.Advance? {
      MoveCounts(total, s, step.req);
    }
  }

  /** When main is let go, each average has taken all values it should, each once. */
  lemma AllAveragedAtRelease(total: nat, s: State)
    requires total < 18446744073709551616 && Reachable(total, s) && s.released
    ensures multiset(s.intoAggressive) == multiset(s.ups) && multiset(s.intoLazy) == multiset(s.downs)
    ensures multiset(s.intoBoth) == multiset(s.ups) + multiset(s.downs)
    ensures |s.ups| == |s.downs| == total
  {
    AllLandedAtRelease(total, s);
    AveragedValues(total, s);
    OwedNothing(s.reqs, OwedAggressive);
    OwedNothing(s.reqs, OwedLazy);
    OwedNothing(s.reqs, OwedBoth);
    assert |multiset(s.ups)| == |s.ups| && |multiset(s.downs)| == |s.downs|;
  }

  // ------------------------------------------------------------------- progress

  /** Atomic actions a request has made, its start included. */
  function Made(p: Phase): nat {
    match p
    case Spawned => 1
    case Indexed(_) => 2
    case Flying(_) => 3
    case AggressiveDone(_) => 4
    case Working => 5
    case Landed(_) => 6
    case LazyDone(_) => 7
    case Logging => 8
    case Done => 9
  }

  function AllMade(reqs: seq<Phase>): nat {
    if reqs == [] then 0 else AllMade(reqs[..|reqs| - 1]) + Made(reqs[|reqs| - 1])
  }

  lemma {:induction false} AllMadeUpdate(reqs: seq<Phase>, i: nat, p: Phase)
    requires i < |reqs|
    ensures AllMade(reqs[i := p]) == AllMade(reqs) - Made(reqs[i]) + Made(p)
  {
    var n := |reqs| - 1;
    if i == n {
      assert reqs[i := p][..n] == reqs[..n];
    } else {
      assert reqs[i := p][..n] == reqs[..n][i := p];
      AllMadeUpdate(reqs[..n], i, p);
    }
  }

  lemma {:induction false} AllMadeBounds(reqs: seq<Phase>)
    ensures AllMade(reqs) <= 9 * |reqs|
    ensures AllMade(reqs) == 9 * |reqs| <==> forall i :: 0 <= i < |reqs| ==> reqs[i].Done?
  {
    if reqs != [] {
      var n := |reqs| - 1;
      AllMadeBounds(reqs[..n]);
      assert forall i :: 0 <= i < n ==> reqs[..n][i] == reqs[i];
    }
  }

  function StepsMade(s: State): nat {
    AllMade(s.reqs) + if s.released then 1 else 0
  }

  lemma {:induction false} StepsCounted(total: nat, s: State, steps: seq<Step>)
    requires CanRun(total, s, steps)
    ensures StepsMade(After(total, s, steps)) == StepsMade(s) + |steps|
    decreases |steps|
  {
    if steps != [] {
      match steps[0] {
        case Spawn => assert (s.reqs + [Spawned])[..|s.reqs|] == s.reqs;
        case Advance(i) =>
          assert Move(s, i).reqs == s.reqs[i := Move(s, i).reqs[i]];
          AllMadeUpdate(s.reqs, i, Move(s, i).reqs[i]);
        case Release =>
      }
      StepsCounted(total, Apply(total, s, steps[0]), steps[1..]);
    }
  }

  /** No interleaving gets stuck: every run has at most 9 actions per request and the
      return of Wait, main has been let go exactly when it has had them all, and until
      then there is something to do. */
  lemma RunsToTheEnd(total: nat, steps: seq<Step>)
    requires total < 18446744073709551616 && CanRun(total, Init(), steps)
    ensures var s := After(total, Init(), steps);
            && |steps| <= 9 * total + 1
            && (s.released <==> |steps| == 9 * total + 1)
            && (!s.released ==> exists step :: Enabled(total, s, step))
  {
    var s := After(total, Init(), steps);
    RunKeeps(total, Init(), steps);
    StepsCounted(total, Init(), steps);
    AllMadeBounds(s.reqs);
    CountNone(s.reqs, Unfinished);
    if |s.reqs| < total && !s.released {
      assert Enabled(total, s, Spawn);
    } else if i :| 0 <= i < |s.reqs| && !s.reqs[i].Done? {
      assert Enabled(total, s, Advance(i));
    } else if !s.released {
      assert Enabled(total, s, Release);
    }
  }

  /** Requests do not wait for each other: any of them can finish by its own actions. */
  lemma {:induction false} RequestFinishes(total: nat, s: State, i: nat) returns (steps: seq<Step>)
    requires i < |s.reqs|
    ensures CanRun(total, s, steps) && forall k :: 0 <= k < |steps| ==> steps[k] == Advance(i)
    ensures i < |After(total, s, steps).reqs| && After(total, s, steps).reqs[i].Done?
    decreases 9 - Made(s.reqs[i])
  {
    if s.reqs[i].Done? {
      steps := [];
    } else {
      var rest := RequestFinishes(total, Move(s, i), i);
      steps := [Advance(i)] + rest;
      assert steps[1..] == rest;
    }
  }

  lemma {:induction false} CountAll(reqs: seq<Phase>, pred: Phase -> bool)
    requires forall i :: 0 <= i < |reqs| ==> pred(reqs[i])
    ensures Count(reqs, pred) == |reqs|
  {
    if reqs != [] {
      CountAll(reqs[..|reqs| - 1], pred);
    }
  }

  // ---------------------------------------------------------- window reductions

  /** One bucket of a rolling window. */
  datatype Bucket = Bucket(sum: real, count: int)

  /** A bucket into which these times, in milliseconds, were added. */
  function Recorded(values: seq<int>): Bucket {
    Bucket(Sum(values) as real, |values|)
  }

  /** issueRequest records durations of 1 to 10 milliseconds. */
  ghost predicate Filled(b: Bucket) {
    exists values :: b == Recorded(values) && forall i :: 0 <= i < |values| ==> 1 <= values[i] <= 10
  }

  /** math.Round: half away from zero. */
  function Round(x: real): (r: int)
    ensures -0.5 <= x - r as real <= 0.5
    ensures x - r as real == 0.5 ==> x < 0.0
    ensures x - r as real == -0.5 ==> x >= 0.0
  {
    if x >= 0.0 then (x + 0.5).Floor else -((-x + 0.5).Floor)
  }

  function RoundedAverage(b: Bucket): (r: real)
    requires b.count > 0
    ensures -0.5 <= b.sum / (b.count as real) - r <= 0.5 && r == r.Floor as real
  {
    Round(b.sum / (b.count as real)) as real
  }

  /** The least rounded average of the non-empty buckets, if that is below 1000. */
  method MinRt(buckets: seq<Bucket>) returns (result: real)
    ensures result <= 1000.0
    ensures forall i :: 0 <= i < |buckets| && buckets[i].count > 0 ==> result <= RoundedAverage(buckets[i])
    ensures result == 1000.0
            || exists i :: 0 <= i < |buckets| && buckets[i].count > 0 && result == RoundedAverage(buckets[i])
  {
    result := 1000.0;
    for n := 0 to |buckets|
      invariant result <= 1000.0
      invariant forall i :: 0 <= i < n && buckets[i].count > 0 ==> result <= RoundedAverage(buckets[i])
      invariant result == 1000.0
                || exists i :: 0 <= i < n && buckets[i].count > 0 && result == RoundedAverage(buckets[i])
    {
      var b := buckets[n];
      if b.count > 0 {
        var avg := RoundedAverage(b);
        if avg < result {
          result := avg;
        }
      }
    }
  }

  /** The largest bucket sum, at least 1, truncated to an integer. */
  method MaxPass(buckets: seq<Bucket>) returns (result: int)
    ensures result >= 1
    ensures forall i :: 0 <= i < |buckets| ==> buckets[i].sum.Floor <= result
    ensures result == 1 || exists i :: 0 <= i < |buckets| && buckets[i].sum.Floor == result
  {
    var most := 1.0;
    for n := 0 to |buckets|
      invariant most >= 1.0
      invariant forall i :: 0 <= i < n ==> buckets[i].sum <= most
      invariant most == 1.0 || exists i :: 0 <= i < n && buckets[i].sum == most
    {
      if buckets[n].sum > most {
        most := buckets[n].sum;
      }
    }
    result := most.Floor;
  }

  lemma {:induction false} SumBounds(values: seq<int>)
    requires forall i :: 0 <= i < |values| ==> 1 <= values[i] <= 10
    ensures |values| <= Sum(values) <= 10 * |values|
  {
    if values != [] {
      SumBounds(values[..|values| - 1]);
    }
  }

  /** A filled bucket's rounded average lies within the recorded times. */
  lemma AverageInRange(b: Bucket)
    requires Filled(b) && b.count > 0
    ensures 1.0 <= RoundedAverage(b) <= 10.0
  {
    var values :| b == Recorded(values) && forall i :: 0 <= i < |values| ==> 1 <= values[i] <= 10;
    SumBounds(values);
    QuotientBounds(b.sum, b.count as real, b.sum / (b.count as real));
  }

  lemma QuotientBounds(a: real, n: real, q: real)
    requires n > 0.0 && n <= a <= 10.0 * n && q == a / n
    ensures 1.0 <= q <= 10.0
  {
    assert q * n == a;
    FactorBounds(q, n, a);
  }

  lemma FactorBounds(q: real, n: real, a: real)
    requires n > 0.0 && n <= a <= 10.0 * n && q * n == a
    ensures 1.0 <= q <= 10.0
  {
    if q < 1.0 {
      ScaleStrictly(q, 1.0, n);
    }
    if 10.0 < q {
      ScaleStrictly(10.0, q, n);
    }
  }

  lemma ScaleStrictly(a: real, b: real, c: real)
    requires a < b && c > 0.0
    ensures a * c < b * c
  {
    assert (b - a) * c > 0.0;
  }

  lemma Scale(a: real, b: real, c: real)
    requires a <= b && c > 0.0
    ensures a * c <= b * c
  {
    if a < b {
      ScaleStrictly(a, b, c);
    }
  }

  /** int64(math.Max(1, x)), with x = float64(maxPass*10) * (minRt/1e3). */
  function FlightLimit(maxPass: int, minRt: real): int {
    var x := (maxPass * 10) as real * (minRt / 1000.0);
    if x > 1.0 then x.Floor else 1
  }

  /** The estimate of the requests the service can hold: at least 1; and once some
      response time is recorded, at most a tenth of the best pass count. */
  method MaxFlight(passes: seq<Bucket>, times: seq<Bucket>) returns (limit: int, ghost maxPass: int, ghost rt: real)
    requires forall i :: 0 <= i < |times| ==> Filled(times[i])
    ensures limit >= 1 && maxPass >= 1
    ensures maxPass == 1 || exists i :: 0 <= i < |passes| && passes[i].sum.Floor == maxPass
    ensures forall i :: 0 <= i < |passes| ==> passes[i].sum.Floor <= maxPass
    ensures forall i :: 0 <= i < |times| && times[i].count > 0 ==> rt <= RoundedAverage(times[i])
    ensures rt == 1000.0 || exists i :: 0 <= i < |times| && times[i].count > 0 && rt == RoundedAverage(times[i])
    ensures if maxPass as real * rt < 100.0 then limit == 1
            else (100 * limit) as real <= maxPass as real * rt < (100 * (limit + 1)) as real
    ensures (exists i :: 0 <= i < |times| && times[i].count > 0) ==>
              maxPass / 100 <= limit <= if maxPass / 10 > 1 then maxPass / 10 else 1
    ensures (forall i :: 0 <= i < |times| ==> times[i].count == 0) ==> limit == 10 * maxPass
  {
    var most := MaxPass(passes);
    var fastest := MinRt(times);
    maxPass, rt := most, fastest;
    limit := FlightLimit(most, fastest);
    FlightValue(most, fastest);
    forall i | 0 <= i < |times| && times[i].count > 0 ensures 1.0 <= RoundedAverage(times[i]) <= 10.0 {
      AverageInRange(times[i]);
    }
    if i :| 0 <= i < |times| && times[i].count > 0 {
      assert 1.0 <= rt <= 10.0;
      FlightBounds(most, rt);
    } else {
      assert rt == 1000.0;
    }
  }

  lemma FlightValue(maxPass: int, rt: real)
    ensures if maxPass as real * rt < 100.0 then FlightLimit(maxPass, rt) == 1
            else (100 * FlightLimit(maxPass, rt)) as real <= maxPass as real * rt
                 < (100 * (FlightLimit(maxPass, rt) + 1)) as real
  {
    var x := (maxPass * 10) as real * (rt / 1000.0);
    assert (maxPass * 10) as real == maxPass as real * 10.0;
    Hundredth(maxPass as real, rt);
    assert 100.0 * x == maxPass as real * rt;
  }

  lemma Hundredth(m: real, rt: real)
    ensures 100.0 * (m * 10.0 * (rt / 1000.0)) == m * rt
  {
    var product := m * rt;
    assert m * 10.0 * (rt / 1000.0) == product / 100.0;
  }

  lemma FlightBounds(maxPass: int, rt: real)
    requires maxPass >= 1 && 1.0 <= rt <= 10.0
    ensures maxPass / 100 <= FlightLimit(maxPass, rt)
    ensures FlightLimit(maxPass, rt) <= if maxPass / 10 > 1 then maxPass / 10 else 1
  {
    var p := (maxPass * 10) as real;
    var x := p * (rt / 1000.0);
    Scale(1.0, rt, p);
    Scale(rt, 10.0, p);
    assert x * 1000.0 == rt * p;
    Thousandths(maxPass as real, p, x, rt * p);
    FloorBounds(x, maxPass);
  }

  lemma Thousandths(m: real, p: real, x: real, product: real)
    requires p == m * 10.0 && x * 1000.0 == product && p <= product <= 10.0 * p
    ensures m <= x * 100.0 && x * 10.0 <= m
  {
  }

  lemma FloorBounds(x: real, n: int)
    requires n as real <= x * 100.0 && x * 10.0 <= n as real
    ensures n / 100 <= x.Floor <= n / 10
  {
    assert (n / 100 * 100) as real <= n as real;
    assert (n / 100) as real <= x;
    assert (x.Floor * 10) as real <= n as real;
  }
}
