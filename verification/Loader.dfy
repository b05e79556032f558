/** The parallel dictionary loader: workers parse line chunks of a file into one pipe,
    a single consumer stores the pairs in a map. */
module Loader {
  import opened Text

  datatype Option<T> = None | Some(value: T)

  /** Key and vector of one dictionary line. */
  datatype Pair = Pair(key: Bytes, vec: seq<real>)

  type Dict = map<Bytes, seq<real>>

  /** The dimension read from the header, and strconv.ParseFloat. */
  datatype Context = Context(dim: int, parse: Bytes -> Option<real>)

  /** The scanner gives up at a line that does not fit its buffer. */
  const SCAN_LIMIT: nat := 0x100000

  // ------------------------------------------------------------------ one line

  /** bufio.ScanLines drops one carriage return before the newline. */
  function DropReturn(line: Bytes): Bytes {
    if line != [] && line[|line| - 1] == CARRIAGE_RETURN then line[..|line| - 1] else line
  }

  function Elements(line: Bytes): (es: seq<Bytes>)
    ensures |es| >= 1
  {
    Split(SPACE, DropReturn(line))
  }

  /** A file with carriage returns before its newlines has the same elements. */
  lemma ReturnIgnored(line: Bytes)
    requires line == [] || line[|line| - 1] != CARRIAGE_RETURN
    ensures Elements(line + [CARRIAGE_RETURN]) == Elements(line)
  {
    assert (line + [CARRIAGE_RETURN])[..|line|] == line;
  }

  /** Every element after the key is a number and they fit the vector. */
  predicate GoodElements(ctx: Context, es: seq<Bytes>) {
    && 1 <= |es| <= ctx.dim + 1
    && forall i :: 1 <= i < |es| ==> ctx.parse(es[i]).Some?
  }

  predicate GoodLine(ctx: Context, line: Bytes) {
    |line| < SCAN_LIMIT && GoodElements(ctx, Elements(line))
  }

  /** The numbers in order, zeros behind them up to the dimension. */
  function PairOf(ctx: Context, es: seq<Bytes>): (p: Pair)
    requires GoodElements(ctx, es)
  {
    Pair(es[0], seq(ctx.dim, j requires 0 <= j < ctx.dim =>
                      if j + 1 < |es| then ctx.parse(es[j + 1]).value else 0.0))
  }

  datatype LineOutcome = Stored(pair: Pair) | BadNumber | Crash

  /** The loop over the elements of one line, filling the vector in place. It ends
      with the pair, at a malformed number, or with a run-time panic (a negative
      dimension, or more numbers than the dimension allows), whichever comes first. */
  method ParseLine(ctx: Context, es: seq<Bytes>) returns (r: LineOutcome)
    requires |es| >= 1
    ensures r.Stored? <==> GoodElements(ctx, es)
    ensures r.Stored? ==> r.pair == PairOf(ctx, es) && r.pair.key == es[0] && |r.pair.vec| == ctx.dim
    ensures r.Stored? ==> forall j :: 0 <= j < ctx.dim ==>
              r.pair.vec[j] == if j + 1 < |es| then ctx.parse(es[j + 1]).value else 0.0
    ensures r.BadNumber? <==>
              ctx.dim >= 0 && exists i :: 1 <= i < |es| && i <= ctx.dim + 1 && ctx.parse(es[i]).None?
  {
    if ctx.dim < 0 {
      return Crash;
    }
    var vec := new real[ctx.dim](_ => 0.0);
    var i := 0;
    while i < |es|
      invariant 0 <= i <= |es| && i <= ctx.dim + 1
      invariant forall k :: 1 <= k < i ==> ctx.parse(es[k]).Some?
      invariant forall j :: 0 <= j < ctx.dim ==>
                  vec[j] == if j + 1 < i then ctx.parse(es[j + 1]).value else 0.0
    {
      if i != 0 {
        var v := ctx.parse(es[i]);
        if v.None? {
          return BadNumber;
        }
        if i - 1 >= vec.Length {
          return Crash;
        }
        vec[i - 1] := v.value;
      }
      i := i + 1;
    }
    r := Stored(Pair(es[0], vec[..]));
    assert r.pair.vec == PairOf(ctx, es).vec;
  }

  // ---------------------------------------------------------------- one worker

  /** What a worker emits for a list of lines: the pairs of the lines before the first
      one that is malformed. */
  function Contribution(ctx: Context, lines: seq<Bytes>): (ps: seq<Pair>)
    ensures |ps| <= |lines|
    ensures forall i :: 0 <= i < |ps| ==> GoodLine(ctx, lines[i]) && ps[i] == PairOf(ctx, Elements(lines[i]))
    ensures |ps| < |lines| ==> !GoodLine(ctx, lines[|ps|])
  {
    if lines == [] || !GoodLine(ctx, lines[0]) then []
    else [PairOf(ctx, Elements(lines[0]))] + Contribution(ctx, lines[1..])
  }

  /** The lines a worker parses: those of its chunk, less the header in the first. */
  function Body(chunk: Bytes, first: bool): seq<Bytes> {
    var lines := Lines(chunk);
    if first && lines != [] then lines[1..] else lines
  }

  /** The header does not fit the scanner's buffer. */
  predicate LongHeader(chunk: Bytes, first: bool) {
    first && Lines(chunk) != [] && |Lines(chunk)[0]| >= SCAN_LIMIT
  }

  /** What a worker emits for its chunk. The failure of the scan that should skip a long
      header is not looked at; the next scan returns the buffered start of the header as
      a line, and the one after that ends the worker. */
  function Output(ctx: Context, chunk: Bytes, first: bool): (ps: seq<Pair>) {
    if LongHeader(chunk, first) then
      var token := Lines(chunk)[0][..SCAN_LIMIT];
      if GoodElements(ctx, Elements(token)) then [PairOf(ctx, Elements(token))] else []
    else Contribution(ctx, Body(chunk, first))
  }

  /** The worker: skip the header in the first chunk, then scan line by line. */
  method Walk(ctx: Context, chunk: Bytes, first: bool) returns (pipe: seq<Pair>)
    ensures pipe == Output(ctx, chunk, first)
  {
    var lines := Lines(chunk);
    if first && lines != [] {
      if |lines[0]| >= SCAN_LIMIT {
        var r := ParseLine(ctx, Elements(lines[0][..SCAN_LIMIT]));
        return if r.Stored? then [r.pair] else [];
      }
      lines := lines[1..];
    }
    pipe := Scan(ctx, lines);
  }

  /** The scanning loop: emit pairs, stop at the first line that does not parse or does
      not fit the scanner's buffer. */
  method Scan(ctx: Context, lines: seq<Bytes>) returns (pipe: seq<Pair>)
    ensures pipe == Contribution(ctx, lines)
  {
    pipe := [];
    var i := 0;
    while i < |lines|
      invariant 0 <= i <= |lines|
      invariant pipe + Contribution(ctx, lines[i..]) == Contribution(ctx, lines)
    {
      if |lines[i]| >= SCAN_LIMIT {
        return;
      }
      var r := ParseLine(ctx, Elements(lines[i]));
      if !r.Stored? {
        return;
      }
      ContributionStep(ctx, lines, i, pipe);
      pipe := pipe + [r.pair];
      i := i + 1;
    }
  }

  lemma ContributionStep(ctx: Context, lines: seq<Bytes>, i: nat, pipe: seq<Pair>)
    requires i < |lines| && GoodLine(ctx, lines[i])
    ensures pipe + Contribution(ctx, lines[i..])
         == pipe + [PairOf(ctx, Elements(lines[i]))] + Contribution(ctx, lines[i + 1..])
  {
    assert lines[i..][1..] == lines[i + 1..];
  }

  // -------------------------------------------------------------- the consumer

  /** Storing pairs one after another: a later pair replaces an earlier one. */
  function Store(ps: seq<Pair>): Dict {
    if ps == [] then map[] else map[ps[0].key := ps[0].vec] + Store(ps[1..])
  }

  lemma {:induction false} StoreKey(ps: seq<Pair>, k: Bytes) returns (i: nat)
    requires k in Store(ps)
    ensures i < |ps| && ps[i].key == k
  {
    if ps[0].key == k {
      i := 0;
    } else {
      i := StoreKey(ps[1..], k);
      i := i + 1;
    }
  }

  /** The last pair with a key decides. */
  lemma {:induction false} StoreIsLast(ps: seq<Pair>, i: nat)
    requires i < |ps| && forall j :: i < j < |ps| ==> ps[j].key != ps[i].key
    ensures ps[i].key in Store(ps) && Store(ps)[ps[i].key] == ps[i].vec
  {
    if i > 0 {
      StoreIsLast(ps[1..], i - 1);
    } else if ps[0].key in Store(ps[1..]) {
      var j := StoreKey(ps[1..], ps[0].key);
    }
  }

  lemma MergeAssociative<K, V>(a: map<K, V>, b: map<K, V>, c: map<K, V>)
    ensures (a + b) + c == a + (b + c)
  {
  }

  /** Workers about to emit `todo`, pairs in the pipe, and the dictionary. */
  datatype State = State(todo: seq<seq<Pair>>, pipe: seq<Pair>, dict: Dict)

  /** Either worker i puts its next pair into the pipe, or the consumer takes one. */
  datatype Step = Emit(worker: nat) | Consume

  predicate Enabled(s: State, step: Step) {
    match step
    case Emit(i) => i < |s.todo| && s.todo[i] != []
    case Consume => s.pipe != []
  }

  function Apply(s: State, step: Step): State
    requires Enabled(s, step)
  {
    match step
    case Emit(i) => s.(todo := s.todo[i := s.todo[i][1..]], pipe := s.pipe + [s.todo[i][0]])
    case Consume => s.(pipe := s.pipe[1..], dict := s.dict[s.pipe[0].key := s.pipe[0].vec])
  }

  predicate CanRun(s: State, steps: seq<Step>)
    decreases |steps|
  {
    steps == [] || (Enabled(s, steps[0]) && CanRun(Apply(s, steps[0]), steps[1..]))
  }

  function After(s: State, steps: seq<Step>): State
    requires CanRun(s, steps)
    decreases |steps|
  {
    if steps == [] then s else After(Apply(s, steps[0]), steps[1..])
  }

  predicate AllEmpty<T(==)>(parts: seq<seq<T>>) {
    forall i :: 0 <= i < |parts| ==> parts[i] == []
  }

  predicate Complete(s: State) {
    AllEmpty(s.todo) && s.pipe == []
  }

  // -------------------------------------------------------------- interleavings

  /** merged takes every element of every part, each part's in order. */
  ghost predicate Interleaves<T>(parts: seq<seq<T>>, merged: seq<T>)
    decreases |merged|
  {
    if merged == [] then AllEmpty(parts)
    else exists i :: 0 <= i < |parts| && Next(parts, i, merged)
                     && Interleaves(parts[i := parts[i][1..]], merged[1..])
  }

  predicate Next<T(==)>(parts: seq<seq<T>>, i: nat, merged: seq<T>)
    requires i < |parts| && merged != []
  {
    parts[i] != [] && parts[i][0] == merged[0]
  }

  /** Whatever the schedule, the consumer stores some interleaving of the workers'
      outputs. */
  lemma {:induction false} RunInterleaves(s: State, steps: seq<Step>) returns (merged: seq<Pair>)
    requires CanRun(s, steps) && Complete(After(s, steps))
    ensures Interleaves(s.todo, merged)
    ensures After(s, steps).dict == s.dict + Store(s.pipe + merged)
    decreases |steps|
  {
    if steps == [] {
      merged := [];
    } else {
      var t := Apply(s, steps[0]);
      var rest := RunInterleaves(t, steps[1..]);
      match steps[0]
      case Emit(i) =>
        merged := [s.todo[i][0]] + rest;
        assert merged[1..] == rest && Next(s.todo, i, merged);
        assert t.pipe + rest == s.pipe + merged;
      case Consume =>
        merged := rest;
        ConsumeStores(s, merged);
    }
  }

  lemma ConsumeStores(s: State, merged: seq<Pair>)
    requires s.pipe != []
    ensures var t := Apply(s, Consume);
            t.dict + Store(t.pipe + merged) == s.dict + Store(s.pipe + merged)
  {
    var t := Apply(s, Consume);
    assert (s.pipe + merged)[1..] == t.pipe + merged;
    MergeAssociative(s.dict, map[s.pipe[0].key := s.pipe[0].vec], Store(t.pipe + merged));
  }

  // ---------------------------------------------------------------- last one wins

  /** Chunks that hold the same key end up with the same vector for it. */
  ghost predicate Agree(parts: seq<seq<Pair>>) {
    forall i, j, k :: 0 <= i < |parts| && 0 <= j < |parts| && k in Store(parts[i]) && k in Store(parts[j])
                      ==> Store(parts[i])[k] == Store(parts[j])[k]
  }

  ghost predicate FromPart(parts: seq<seq<Pair>>, i: int, k: Bytes, v: seq<real>) {
    0 <= i < |parts| && k in Store(parts[i]) && Store(parts[i])[k] == v
  }

  /** What an interleaving stores under a key is what one of the parts would store. */
  lemma {:induction false} StoredValue(parts: seq<seq<Pair>>, merged: seq<Pair>, k: Bytes)
    requires Interleaves(parts, merged)
    ensures k in Store(merged) <==> exists i :: 0 <= i < |parts| && k in Store(parts[i])
    ensures k in Store(merged) ==> exists i :: FromPart(parts, i, k, Store(merged)[k])
    decreases |merged|
  {
    if merged != [] {
      var i :| 0 <= i < |parts| && Next(parts, i, merged)
               && Interleaves(parts[i := parts[i][1..]], merged[1..]);
      var rest := parts[i := parts[i][1..]];
      StoredValue(rest, merged[1..], k);
      assert Store(parts[i]) == map[merged[0].key := merged[0].vec] + Store(rest[i]);
      assert forall j :: 0 <= j < |parts| && j != i ==> rest[j] == parts[j];
      if k in Store(merged[1..]) {
        var j :| FromPart(rest, j, k, Store(merged[1..])[k]);
        assert FromPart(parts, j, k, Store(merged)[k]);
      } else if k == merged[0].key {
        assert k !in Store(rest[i]);
        assert FromPart(parts, i, k, Store(merged)[k]);
      }
    }
  }

  lemma AgreementSuffices(parts: seq<seq<Pair>>, a: seq<Pair>, b: seq<Pair>)
    requires Agree(parts) && Interleaves(parts, a) && Interleaves(parts, b)
    ensures Store(a) == Store(b)
  {
    forall k ensures k in Store(a) <==> k in Store(b)
             ensures k in Store(a) ==> Store(a)[k] == Store(b)[k]
    {
      StoredValue(parts, a, k);
      StoredValue(parts, b, k);
      if k in Store(a) {
        var i :| FromPart(parts, i, k, Store(a)[k]);
        var j :| FromPart(parts, j, k, Store(b)[k]);
      }
    }
  }

  // ------------------------------------------------- building interleavings

  lemma {:induction false} AloneInterleaves<T>(parts: seq<seq<T>>, i: nat)
    requires i < |parts| && AllEmpty(parts[i := []])
    ensures Interleaves(parts, parts[i])
    decreases |parts[i]|
  {
    assert forall j :: 0 <= j < |parts| && j != i ==> parts[j] == parts[i := []][j];
    if parts[i] != [] {
      var rest := parts[i := parts[i][1..]];
      assert rest[i := []] == parts[i := []];
      AloneInterleaves(rest, i);
      assert Next(parts, i, parts[i]);
    }
  }

  /** A worker that runs after all the others. */
  lemma {:induction false} LateInterleaves<T>(parts: seq<seq<T>>, i: nat, m: seq<T>)
    requires i < |parts| && Interleaves(parts[i := []], m)
    ensures Interleaves(parts, m + parts[i])
    decreases |m|
  {
    var early := parts[i := []];
    if m == [] {
      AloneInterleaves(parts, i);
      assert m + parts[i] == parts[i];
    } else {
      var j :| 0 <= j < |early| && Next(early, j, m) && Interleaves(early[j := early[j][1..]], m[1..]);
      var rest := parts[j := parts[j][1..]];
      assert rest[i := []] == early[j := early[j][1..]];
      LateInterleaves(rest, i, m[1..]);
      assert (m + parts[i])[1..] == m[1..] + rest[i];
      assert Next(parts, j, m + parts[i]);
    }
  }

  lemma {:induction false} EmptyPartInterleaves<T>(parts: seq<seq<T>>, m: seq<T>)
    requires Interleaves(parts, m)
    ensures Interleaves(parts + [[]], m)
    decreases |m|
  {
    if m != [] {
      var j :| 0 <= j < |parts| && Next(parts, j, m) && Interleaves(parts[j := parts[j][1..]], m[1..]);
      EmptyPartInterleaves(parts[j := parts[j][1..]], m[1..]);
      assert (parts + [[]])[j := parts[j][1..]] == parts[j := parts[j][1..]] + [[]];
      assert Next(parts + [[]], j, m);
    }
  }

  /** One worker after the other, in order: the sequential schedule. */
  lemma {:induction false} ConcatInterleaves<T>(parts: seq<seq<T>>)
    ensures Interleaves(parts, Concat(parts))
    decreases |parts|
  {
    if parts != [] {
      var n := |parts| - 1;
      ConcatInterleaves(parts[..n]);
      EmptyPartInterleaves(parts[..n], Concat(parts[..n]));
      assert parts[n := []] == parts[..n] + [[]];
      LateInterleaves(parts, n, Concat(parts[..n]));
    }
  }

  lemma {:induction false} StoreAppend(a: seq<Pair>, b: seq<Pair>)
    ensures Store(a + b) == Store(a) + Store(b)
  {
    if a == [] {
      assert a + b == b;
    } else {
      StoreAppend(a[1..], b);
      MergeAssociative(map[a[0].key := a[0].vec], Store(a[1..]), Store(b));
      assert (a + b)[1..] == a[1..] + b;
    }
  }

  /** Every interleaving stores the dictionary of the sequential one exactly when chunks
      that share a key agree on its vector. */
  lemma InterleavingsAgree(parts: seq<seq<Pair>>)
    ensures (forall m :: Interleaves(parts, m) ==> Store(m) == Store(Concat(parts))) <==> Agree(parts)
  {
    ConcatInterleaves(parts);
    if Agree(parts) {
      forall m | Interleaves(parts, m) ensures Store(m) == Store(Concat(parts)) {
        AgreementSuffices(parts, m, Concat(parts));
      }
    } else {
      var i, j, k :| 0 <= i < |parts| && 0 <= j < |parts| && k in Store(parts[i]) && k in Store(parts[j])
                     && Store(parts[i])[k] != Store(parts[j])[k];
      LastWins(parts, i, k);
      LastWins(parts, j, k);
    }
  }

  /** Worker i emits a pair and the consumer takes it at once. */
  function EmitConsume(s: State, i: nat): (t: State)
    requires s.pipe == [] && i < |s.todo| && s.todo[i] != []
    ensures t == Apply(Apply(s, Emit(i)), Consume)
  {
    State(s.todo[i := s.todo[i][1..]], [], s.dict + map[s.todo[i][0].key := s.todo[i][0].vec])
  }

  /** Every interleaving is produced by some schedule: each pair is consumed as soon as
      it is emitted. */
  lemma {:induction false} InterleavingRuns(s: State, m: seq<Pair>) returns (steps: seq<Step>)
    requires s.pipe == [] && Interleaves(s.todo, m)
    ensures CanRun(s, steps) && Complete(After(s, steps))
    ensures After(s, steps).dict == s.dict + Store(m)
    decreases |m|
  {
    if m == [] {
      steps := [];
    } else {
      var i :| 0 <= i < |s.todo| && Next(s.todo, i, m) && Interleaves(s.todo[i := s.todo[i][1..]], m[1..]);
      var rest := InterleavingRuns(EmitConsume(s, i), m[1..]);
      steps := [Emit(i), Consume] + rest;
      assert steps[1..] == [Consume] + rest && steps[1..][1..] == rest;
      MergeAssociative(s.dict, map[m[0].key := m[0].vec], Store(m[1..]));
    }
  }

  /** Workers that have emitted nothing yet. */
  function Fresh(parts: seq<seq<Pair>>): State {
    State(parts, [], map[])
  }

  ghost predicate Finishes(parts: seq<seq<Pair>>, steps: seq<Step>) {
    CanRun(Fresh(parts), steps) && Complete(After(Fresh(parts), steps))
  }

  function Result(parts: seq<seq<Pair>>, steps: seq<Step>): Dict
    requires CanRun(Fresh(parts), steps)
  {
    After(Fresh(parts), steps).dict
  }

  lemma FinishedInterleaves(parts: seq<seq<Pair>>, steps: seq<Step>) returns (merged: seq<Pair>)
    requires Finishes(parts, steps)
    ensures Interleaves(parts, merged) && Result(parts, steps) == Store(merged)
  {
    merged := RunInterleaves(Fresh(parts), steps);
    assert [] + merged == merged && map[] + Store(merged) == Store(merged);
  }

  lemma AgreeingRun(parts: seq<seq<Pair>>, steps: seq<Step>)
    requires Agree(parts) && Finishes(parts, steps)
    ensures Result(parts, steps) == Store(Concat(parts))
  {
    var merged := FinishedInterleaves(parts, steps);
    ConcatInterleaves(parts);
    AgreementSuffices(parts, merged, Concat(parts));
  }

  lemma InterleavingFinishes(parts: seq<seq<Pair>>, m: seq<Pair>) returns (steps: seq<Step>)
    requires Interleaves(parts, m)
    ensures Finishes(parts, steps) && Result(parts, steps) == Store(m)
  {
    steps := InterleavingRuns(Fresh(parts), m);
    assert map[] + Store(m) == Store(m);
  }

  lemma DisagreeingRun(parts: seq<seq<Pair>>) returns (steps: seq<Step>)
    requires !Agree(parts)
    ensures Finishes(parts, steps) && Result(parts, steps) != Store(Concat(parts))
  {
    InterleavingsAgree(parts);
    var m :| Interleaves(parts, m) && Store(m) != Store(Concat(parts));
    steps := InterleavingFinishes(parts, m);
  }

  /** Every finished run of workers and consumer gives the dictionary of the sequential
      schedule exactly when chunks that share a key agree on its vector. */
  lemma SchedulesAgree(parts: seq<seq<Pair>>)
    ensures (forall steps :: Finishes(parts, steps) ==> Result(parts, steps) == Store(Concat(parts)))
            <==> Agree(parts)
  {
    if Agree(parts) {
      forall steps | Finishes(parts, steps) ensures Result(parts, steps) == Store(Concat(parts)) {
        AgreeingRun(parts, steps);
      }
    } else {
      var steps := DisagreeingRun(parts);
    }
  }

  lemma LastWins(parts: seq<seq<Pair>>, i: nat, k: Bytes)
    requires i < |parts| && k in Store(parts[i])
    ensures exists m :: Interleaves(parts, m) && k in Store(m) && Store(m)[k] == Store(parts[i])[k]
  {
    var early := Concat(parts[i := []]);
    ConcatInterleaves(parts[i := []]);
    LateInterleaves(parts, i, early);
    StoreAppend(early, parts[i]);
    assert Interleaves(parts, early + parts[i]);
  }

  // --------------------------------------------------------------- whole files

  /** The assumed contract of SplitLineChunks: non-empty ranges that cover the file in
      order, each starting at the start of a line. */
  ghost predicate Chunking(file: Bytes, chunks: seq<Bytes>) {
    && Concat(chunks) == file
    && (forall i :: 0 <= i < |chunks| ==> chunks[i] != [])
    && (forall i :: 0 <= i < |chunks| - 1 ==> EndsLine(chunks[i]))
  }

  /** The lines each worker is responsible for. */
  function Bodies(chunks: seq<Bytes>): (bodies: seq<seq<Bytes>>)
    ensures |bodies| == |chunks|
  {
    seq(|chunks|, i requires 0 <= i < |chunks| => Body(chunks[i], i == 0))
  }

  /** What each worker emits. */
  function Outputs(ctx: Context, chunks: seq<Bytes>): (parts: seq<seq<Pair>>)
    ensures |parts| == |chunks|
  {
    seq(|chunks|, i requires 0 <= i < |chunks| => Output(ctx, chunks[i], i == 0))
  }

  lemma FrontEnds(front: seq<Bytes>)
    requires front != []
    requires forall i :: 0 <= i < |front| ==> front[i] != [] && EndsLine(front[i])
    ensures Concat(front) != [] && EndsLine(Concat(front))
  {
    ConcatEndsLine(front);
    assert front[|front| - 1] != [];
  }

  lemma ConcatOne<T>(parts: seq<seq<T>>)
    requires |parts| == 1
    ensures Concat(parts) == parts[0]
  {
    assert parts[..0] == [];
    assert Concat(parts[..0]) == [];
  }

  /** A chunking without its last chunk is a chunking of the file without it. */
  lemma FrontChunking(file: Bytes, chunks: seq<Bytes>)
    requires Chunking(file, chunks) && |chunks| > 1
    ensures var n := |chunks| - 1;
            var head := Concat(chunks[..n]);
            Chunking(head, chunks[..n]) && head != [] && EndsLine(head) && file == head + chunks[n]
  {
    FrontEnds(chunks[..|chunks| - 1]);
  }

  /** Cutting any file at line starts loses no line, repeats none, and skips the header
      once. */
  lemma {:induction false} ChunksCoverFile(file: Bytes, chunks: seq<Bytes>)
    requires Chunking(file, chunks)
    ensures Concat(Bodies(chunks)) == Body(file, true)
    decreases |chunks|
  {
    if |chunks| == 1 {
      ConcatOne(chunks);
      ConcatOne(Bodies(chunks));
    } else if |chunks| > 1 {
      var n := |chunks| - 1;
      var head := Concat(chunks[..n]);
      FrontChunking(file, chunks);
      ChunksCoverFile(head, chunks[..n]);
      LinesConcat(head, chunks[n]);
      assert Bodies(chunks)[..n] == Bodies(chunks[..n]);
    }
  }

  // ------------------------------------------------------ when the cut matters

  /** The worker stops before the end of its chunk: at a line that does not parse or
      fit, or at a header that does not fit. */
  predicate Stops(ctx: Context, chunk: Bytes, first: bool) {
    LongHeader(chunk, first) || !AllGood(ctx, Body(chunk, first))
  }

  predicate AllGood(ctx: Context, lines: seq<Bytes>) {
    forall i :: 0 <= i < |lines| ==> GoodLine(ctx, lines[i])
  }

  /** A load by one worker over the whole file. */
  function SequentialLoad(ctx: Context, file: Bytes): Dict {
    Store(Output(ctx, file, true))
  }

  /** A chunk behind a stopped worker that still contributes. */
  ghost predicate Harm(ctx: Context, chunks: seq<Bytes>, i: int, j: int) {
    0 <= i < j < |chunks| && Stops(ctx, chunks[i], i == 0) && Output(ctx, chunks[j], false) != []
  }

  /** No chunk behind one whose worker stops has anything to contribute. */
  ghost predicate CutHarmless(ctx: Context, chunks: seq<Bytes>) {
    forall i, j :: !Harm(ctx, chunks, i, j)
  }

  lemma AllGoodAppend(ctx: Context, a: seq<Bytes>, b: seq<Bytes>)
    ensures AllGood(ctx, a + b) <==> AllGood(ctx, a) && AllGood(ctx, b)
  {
    if AllGood(ctx, a + b) {
      assert forall i :: 0 <= i < |a| ==> (a + b)[i] == a[i];
      assert forall i :: 0 <= i < |b| ==> (a + b)[|a| + i] == b[i];
    }
  }

  lemma ContributionCons(ctx: Context, line: Bytes, rest: seq<Bytes>)
    ensures Contribution(ctx, [line] + rest)
         == if GoodLine(ctx, line) then [PairOf(ctx, Elements(line))] + Contribution(ctx, rest) else []
    ensures AllGood(ctx, [line] + rest) <==> GoodLine(ctx, line) && AllGood(ctx, rest)
  {
    var lines := [line] + rest;
    assert lines[0] == line && lines[1..] == rest;
    AllGoodAppend(ctx, [line], rest);
    assert AllGood(ctx, [line]) <==> GoodLine(ctx, [line][0]);
  }

  lemma {:induction false} ContributionAppend(ctx: Context, a: seq<Bytes>, b: seq<Bytes>)
    ensures Contribution(ctx, a + b)
         == Contribution(ctx, a) + (if AllGood(ctx, a) then Contribution(ctx, b) else [])
  {
    if a == [] {
      assert a + b == b;
    } else {
      var line, rest := a[0], a[1..];
      assert a == [line] + rest && a + b == [line] + (rest + b);
      ContributionAppend(ctx, rest, b);
      ContributionCons(ctx, line, rest);
      ContributionCons(ctx, line, rest + b);
      if GoodLine(ctx, line) {
        var more := if AllGood(ctx, rest) then Contribution(ctx, b) else [];
        AppendAssociative([PairOf(ctx, Elements(line))], Contribution(ctx, rest), more);
      }
    }
  }

  lemma AppendAssociative<T>(a: seq<T>, b: seq<T>, c: seq<T>)
    ensures a + (b + c) == (a + b) + c
  {
  }

  /** One worker over a file cut in two: it reaches the second part exactly if it does
      not stop in the first. */
  lemma CutInTwo(ctx: Context, head: Bytes, last: Bytes)
    requires head != [] && EndsLine(head)
    ensures Output(ctx, head + last, true)
         == Output(ctx, head, true) + (if Stops(ctx, head, true) then [] else Output(ctx, last, false))
    ensures Stops(ctx, head + last, true) <==> Stops(ctx, head, true) || Stops(ctx, last, false)
  {
    BodyConcat(head, last);
    ContributionAppend(ctx, Body(head, true), Body(last, false));
    AllGoodAppend(ctx, Body(head, true), Body(last, false));
  }

  lemma BodyConcat(head: Bytes, last: Bytes)
    requires head != [] && EndsLine(head)
    ensures Body(head + last, true) == Body(head, true) + Body(last, false)
    ensures LongHeader(head + last, true) == LongHeader(head, true)
    ensures Lines(head) != [] && Lines(head + last) != [] && Lines(head + last)[0] == Lines(head)[0]
  {
    LinesConcat(head, last);
    assert Lines(head + last)[0] == Lines(head)[0];
  }

  ghost predicate SomeStops(ctx: Context, chunks: seq<Bytes>) {
    exists i :: 0 <= i < |chunks| && Stops(ctx, chunks[i], i == 0)
  }

  lemma SomeStopsSnoc(ctx: Context, chunks: seq<Bytes>)
    requires chunks != []
    ensures var n := |chunks| - 1;
            SomeStops(ctx, chunks) <==> SomeStops(ctx, chunks[..n]) || Stops(ctx, chunks[n], n == 0)
  {
    var n := |chunks| - 1;
    var front := chunks[..n];
    if i :| 0 <= i < n && Stops(ctx, front[i], i == 0) {
      assert front[i] == chunks[i];
    }
    if i :| 0 <= i < |chunks| && Stops(ctx, chunks[i], i == 0) {
      assert i < n ==> front[i] == chunks[i];
    }
  }

  lemma HarmGrows(ctx: Context, front: seq<Bytes>, last: Bytes, i: int, j: int)
    requires 0 <= j < |front|
    ensures Harm(ctx, front, i, j) <==> Harm(ctx, front + [last], i, j)
  {
    if 0 <= i < j {
      assert (front + [last])[i] == front[i] && (front + [last])[j] == front[j];
    }
  }

  lemma HarmLast(ctx: Context, front: seq<Bytes>, last: Bytes, i: int)
    ensures Harm(ctx, front + [last], i, |front|)
       <==> 0 <= i < |front| && Stops(ctx, front[i], i == 0) && Output(ctx, last, false) != []
  {
    if 0 <= i < |front| {
      assert (front + [last])[i] == front[i];
    }
  }

  lemma HarmlessAppend(ctx: Context, chunks: seq<Bytes>, front: seq<Bytes>, last: Bytes)
    requires chunks == front + [last]
    ensures CutHarmless(ctx, chunks)
       <==> CutHarmless(ctx, front) && (SomeStops(ctx, front) ==> Output(ctx, last, false) == [])
  {
    if i, j :| Harm(ctx, front, i, j) {
      HarmGrows(ctx, front, last, i, j);
    }
    if SomeStops(ctx, front) {
      var i :| 0 <= i < |front| && Stops(ctx, front[i], i == 0);
      HarmLast(ctx, front, last, i);
    }
    if i, j :| Harm(ctx, chunks, i, j) {
      if j < |front| {
        HarmGrows(ctx, front, last, i, j);
      } else {
        HarmLast(ctx, front, last, i);
      }
    }
  }

  lemma HarmlessSnoc(ctx: Context, chunks: seq<Bytes>)
    requires |chunks| > 1
    ensures var n := |chunks| - 1;
            CutHarmless(ctx, chunks) <==>
              CutHarmless(ctx, chunks[..n]) && (SomeStops(ctx, chunks[..n]) ==> Outputs(ctx, chunks)[n] == [])
  {
    HarmlessAppend(ctx, chunks, chunks[..|chunks| - 1], chunks[|chunks| - 1]);
  }

  lemma OutputsSnoc(ctx: Context, chunks: seq<Bytes>)
    requires chunks != []
    ensures var n := |chunks| - 1;
            Concat(Outputs(ctx, chunks)) == Concat(Outputs(ctx, chunks[..n])) + Outputs(ctx, chunks)[n]
  {
    var n := |chunks| - 1;
    assert Outputs(ctx, chunks)[..n] == Outputs(ctx, chunks[..n]);
  }

  lemma PrefixCases(whole: seq<Pair>, first: seq<Pair>, rest: seq<Pair>)
    requires whole <= first
    ensures whole <= first + rest
    ensures first + rest == whole <==> first == whole && rest == []
  {
  }

  /** For any file and any cut, the workers together emit what one worker emits for the
      whole file, and possibly more behind it; they emit exactly that if and only if no
      chunk behind one whose worker stops contributes anything. */
  lemma {:induction false} CutExact(ctx: Context, file: Bytes, chunks: seq<Bytes>)
    requires Chunking(file, chunks)
    ensures Output(ctx, file, true) <= Concat(Outputs(ctx, chunks))
    ensures Concat(Outputs(ctx, chunks)) == Output(ctx, file, true) <==> CutHarmless(ctx, chunks)
    ensures chunks != [] ==> (Stops(ctx, file, true) <==> SomeStops(ctx, chunks))
    decreases |chunks|
  {
    if |chunks| == 1 {
      ConcatOne(chunks);
      ConcatOne(Outputs(ctx, chunks));
      assert chunks[0] == file && SomeStops(ctx, chunks) == Stops(ctx, file, true);
    } else if |chunks| > 1 {
      var n := |chunks| - 1;
      var head := Concat(chunks[..n]);
      FrontChunking(file, chunks);
      CutExact(ctx, head, chunks[..n]);
      CutInTwo(ctx, head, chunks[n]);
      OutputsSnoc(ctx, chunks);
      HarmlessSnoc(ctx, chunks);
      SomeStopsSnoc(ctx, chunks);
      PrefixCases(Output(ctx, head, true), Concat(Outputs(ctx, chunks[..n])), Outputs(ctx, chunks)[n]);
    }
  }

  lemma CutMattersLines(header: Bytes, bad: Bytes, good: Bytes)
    requires Free(NEWLINE, header) && Free(NEWLINE, bad) && Free(NEWLINE, good)
    ensures var first, second := header + [NEWLINE] + (bad + [NEWLINE]), good + [NEWLINE];
            Lines(first) == [header, bad] && Lines(second) == [good] && Lines(first + second) == [header, bad, good]
  {
    var h, b, second := header + [NEWLINE], bad + [NEWLINE], good + [NEWLINE];
    OneLine(header);
    OneLine(bad);
    OneLine(good);
    LinesConcat(h, b);
    LinesConcat(h + b, second);
  }

  lemma TwoChunks(first: Bytes, second: Bytes)
    requires first != [] && EndsLine(first) && second != []
    ensures Chunking(first + second, [first + second]) && Chunking(first + second, [first, second])
  {
    ConcatOne([first + second]);
    ConcatOne([first]);
    assert [first, second][..1] == [first];
  }

  lemma StopsAtOnce(ctx: Context, chunk: Bytes)
    requires |Lines(chunk)| > 1 && |Lines(chunk)[0]| < SCAN_LIMIT && !GoodLine(ctx, Lines(chunk)[1])
    ensures Output(ctx, chunk, true) == []
  {
    assert Body(chunk, true)[0] == Lines(chunk)[1];
  }

  lemma LoneLine(ctx: Context, chunk: Bytes, line: Bytes)
    requires Lines(chunk) == [line] && GoodLine(ctx, line)
    ensures Output(ctx, chunk, false) == [PairOf(ctx, Elements(line))]
  {
    assert Lines(chunk)[1..] == [];
  }

  lemma OutputsOfTwo(ctx: Context, first: Bytes, second: Bytes)
    ensures Outputs(ctx, [first]) == [Output(ctx, first, true)]
    ensures Outputs(ctx, [first, second]) == [Output(ctx, first, true), Output(ctx, second, false)]
  {
  }

  /** A malformed line before a good one, and a cut between them: loaded whole, the file
      gives no entry; cut in two, it gives the good line's. */
  lemma CutMatters(ctx: Context, header: Bytes, bad: Bytes, good: Bytes)
    requires Free(NEWLINE, header) && Free(NEWLINE, bad) && Free(NEWLINE, good)
    requires |header| < SCAN_LIMIT && !GoodLine(ctx, bad) && GoodLine(ctx, good)
    ensures var first, second := header + [NEWLINE] + (bad + [NEWLINE]), good + [NEWLINE];
            && Chunking(first + second, [first + second]) && Chunking(first + second, [first, second])
            && Outputs(ctx, [first + second]) == [[]]
            && Outputs(ctx, [first, second]) == [[], [PairOf(ctx, Elements(good))]]
  {
    var first, second := header + [NEWLINE] + (bad + [NEWLINE]), good + [NEWLINE];
    CutMattersLines(header, bad, good);
    TwoChunks(first, second);
    StopsAtOnce(ctx, first);
    StopsAtOnce(ctx, first + second);
    LoneLine(ctx, second, good);
    OutputsOfTwo(ctx, first + second, []);
    OutputsOfTwo(ctx, first, second);
  }

  lemma OnePair(parts: seq<seq<Pair>>, ps: seq<Pair>)
    requires Concat(parts) == ps && |ps| <= 1
    ensures forall steps :: Finishes(parts, steps) ==> Result(parts, steps) == Store(ps)
  {
    forall steps | Finishes(parts, steps) ensures Result(parts, steps) == Store(ps) {
      DistinctKeysAgree(parts);
      AgreeingRun(parts, steps);
    }
  }

  lemma ConcatTwo<T>(a: seq<T>, b: seq<T>)
    ensures Concat([a]) == a && Concat([a, b]) == a + b
  {
    ConcatOne([a]);
    assert [a, b][..1] == [a];
  }

  /** Under every schedule, the file loaded whole gives no entry and the file cut between
      the two lines gives the good line's. */
  lemma CutMattersRuns(ctx: Context, header: Bytes, bad: Bytes, good: Bytes, whole: seq<Bytes>, halves: seq<Bytes>)
    requires Free(NEWLINE, header) && Free(NEWLINE, bad) && Free(NEWLINE, good)
    requires |header| < SCAN_LIMIT && !GoodLine(ctx, bad) && GoodLine(ctx, good)
    requires var first, second := header + [NEWLINE] + (bad + [NEWLINE]), good + [NEWLINE];
             whole == [first + second] && halves == [first, second]
    ensures forall steps :: Finishes(Outputs(ctx, whole), steps) ==> Result(Outputs(ctx, whole), steps) == map[]
    ensures var pair := PairOf(ctx, Elements(good));
            forall steps :: Finishes(Outputs(ctx, halves), steps) ==>
                              Result(Outputs(ctx, halves), steps) == map[pair.key := pair.vec]
  {
    var pair := PairOf(ctx, Elements(good));
    CutMatters(ctx, header, bad, good);
    ConcatTwo([], [pair]);
    assert Store([pair]) == map[pair.key := pair.vec];
    OnePair(Outputs(ctx, whole), []);
    OnePair(Outputs(ctx, halves), [pair]);
  }

  lemma SpaceIsBad(ctx: Context)
    requires ctx.dim == 0
    ensures !GoodLine(ctx, [SPACE]) && GoodLine(ctx, []) && PairOf(ctx, Elements([])) == Pair([], [])
  {
    assert Split(SPACE, [SPACE][1..]) == [[]];
  }

  /** One file, two cuts, two dictionaries, whatever the schedules: with dimension 0 a
      line of one space is malformed and an empty line is not. */
  lemma CutMattersSomewhere(parse: Bytes -> Option<real>) returns (file: Bytes, whole: seq<Bytes>, halves: seq<Bytes>)
    ensures Chunking(file, whole) && Chunking(file, halves)
    ensures var parts := Outputs(Context(0, parse), whole);
            forall steps :: Finishes(parts, steps) ==> Result(parts, steps) == map[]
    ensures var parts := Outputs(Context(0, parse), halves);
            forall steps :: Finishes(parts, steps) ==> Result(parts, steps) == map[[] := []]
  {
    var ctx := Context(0, parse);
    var first, second := [] + [NEWLINE] + ([SPACE] + [NEWLINE]), [] + [NEWLINE];
    file, whole, halves := first + second, [first + second], [first, second];
    SpaceIsBad(ctx);
    TwoChunks(first, second);
    CutMattersRuns(ctx, [], [SPACE], [], whole, halves);
  }

  // --------------------------------------------------------------- main results

  /** Header and lines all fit the scanner, and every line after the header parses. */
  predicate WellFormed(ctx: Context, file: Bytes) {
    !Stops(ctx, file, true)
  }

  ghost predicate DistinctKeys(ps: seq<Pair>) {
    forall i, j :: 0 <= i < j < |ps| ==> ps[i].key != ps[j].key
  }

  /** The keys of dict are those of the parts, each with some part's value. */
  ghost predicate Loaded(parts: seq<seq<Pair>>, dict: Dict) {
    && (forall k :: k in dict <==> exists i :: 0 <= i < |parts| && k in Store(parts[i]))
    && (forall k :: k in dict ==> exists i :: FromPart(parts, i, k, dict[k]))
  }

  lemma InterleavingLoads(parts: seq<seq<Pair>>, merged: seq<Pair>)
    requires Interleaves(parts, merged)
    ensures Loaded(parts, Store(merged))
  {
    forall k ensures k in Store(merged) <==> exists i :: 0 <= i < |parts| && k in Store(parts[i])
             ensures k in Store(merged) ==> exists i :: FromPart(parts, i, k, Store(merged)[k])
    {
      StoredValue(parts, merged, k);
    }
  }

  /** For any file, cut and schedule: the chunks hold the file's lines, each once and in
      order; a finished load holds exactly the keys of what the workers emit, which for
      each chunk are its lines before its first bad one; and where chunks agree on shared
      keys it is the in-order load of those. */
  lemma ParallelLoad(ctx: Context, file: Bytes, chunks: seq<Bytes>, steps: seq<Step>)
    requires Chunking(file, chunks) && Finishes(Outputs(ctx, chunks), steps)
    ensures Concat(Bodies(chunks)) == Body(file, true)
    ensures forall i :: 0 <= i < |chunks| && !LongHeader(chunks[i], i == 0) ==>
              Outputs(ctx, chunks)[i] == Contribution(ctx, Bodies(chunks)[i])
    ensures Loaded(Outputs(ctx, chunks), Result(Outputs(ctx, chunks), steps))
    ensures Agree(Outputs(ctx, chunks)) ==>
              Result(Outputs(ctx, chunks), steps) == Store(Concat(Outputs(ctx, chunks)))
  {
    ChunksCoverFile(file, chunks);
    var merged := FinishedInterleaves(Outputs(ctx, chunks), steps);
    InterleavingLoads(Outputs(ctx, chunks), merged);
    if Agree(Outputs(ctx, chunks)) {
      AgreeingRun(Outputs(ctx, chunks), steps);
    }
  }

  lemma {:induction false} ConcatIndex<T>(parts: seq<seq<T>>, i: nat, a: nat) returns (p: nat)
    requires i < |parts| && a < |parts[i]|
    ensures p < |Concat(parts)| && Concat(parts)[p] == parts[i][a]
    ensures |Concat(parts[..i])| <= p < |Concat(parts[..i])| + |parts[i]|
    decreases |parts|
  {
    var n := |parts| - 1;
    if i == n {
      p := |Concat(parts[..n])| + a;
    } else {
      p := ConcatIndex(parts[..n], i, a);
      assert parts[..n][..i] == parts[..i];
    }
  }

  lemma {:induction false} ConcatPrefixLength<T>(parts: seq<seq<T>>, i: nat, j: nat)
    requires i < j <= |parts|
    ensures |Concat(parts[..i])| + |parts[i]| <= |Concat(parts[..j])|
    decreases j
  {
    assert parts[..j][..j - 1] == parts[..j - 1];
    if i < j - 1 {
      ConcatPrefixLength(parts, i, j - 1);
    }
  }

  lemma DistinctKeysAgree(parts: seq<seq<Pair>>)
    requires DistinctKeys(Concat(parts))
    ensures Agree(parts)
  {
    forall i, j, k | 0 <= i < |parts| && 0 <= j < |parts| && k in Store(parts[i]) && k in Store(parts[j])
      ensures Store(parts[i])[k] == Store(parts[j])[k]
    {
      var a := StoreKey(parts[i], k);
      var b := StoreKey(parts[j], k);
      var p := ConcatIndex(parts, i, a);
      var q := ConcatIndex(parts, j, b);
      if i < j {
        ConcatPrefixLength(parts, i, j);
      } else if j < i {
        ConcatPrefixLength(parts, j, i);
      }
    }
  }

  lemma {:induction false} StoreHas(ps: seq<Pair>, i: nat)
    requires i < |ps|
    ensures ps[i].key in Store(ps)
  {
    if i > 0 {
      StoreHas(ps[1..], i - 1);
    }
  }

  lemma MoreKeys(whole: seq<Pair>, more: seq<Pair>)
    requires whole <= more && DistinctKeys(more)
    ensures Store(more) == Store(whole) <==> more == whole
  {
    if more != whole {
      StoreHas(more, |whole|);
      if more[|whole|].key in Store(whole) {
        var i := StoreKey(whole, more[|whole|].key);
      }
    }
  }

  /** If the pairs the workers emit have distinct keys, a finished load is the sequential
      one if and only if the cut is harmless. */
  lemma LoadExact(ctx: Context, file: Bytes, chunks: seq<Bytes>, steps: seq<Step>)
    requires Chunking(file, chunks) && Finishes(Outputs(ctx, chunks), steps)
    requires DistinctKeys(Concat(Outputs(ctx, chunks)))
    ensures Result(Outputs(ctx, chunks), steps) == SequentialLoad(ctx, file) <==> CutHarmless(ctx, chunks)
  {
    CutExact(ctx, file, chunks);
    DistinctKeysAgree(Outputs(ctx, chunks));
    AgreeingRun(Outputs(ctx, chunks), steps);
    MoreKeys(Output(ctx, file, true), Concat(Outputs(ctx, chunks)));
  }

  /** A well-formed file with distinct keys: for every cut and every schedule the loaded
      dictionary is that of a sequential load, and it has an entry for every line after
      the header. */
  lemma ParallelEqualsSequential(ctx: Context, file: Bytes, chunks: seq<Bytes>, steps: seq<Step>)
    requires Chunking(file, chunks) && Finishes(Outputs(ctx, chunks), steps)
    requires WellFormed(ctx, file) && DistinctKeys(Output(ctx, file, true))
    ensures Result(Outputs(ctx, chunks), steps) == SequentialLoad(ctx, file)
    ensures |Output(ctx, file, true)| == if file == [] then 0 else |Lines(file)| - 1
  {
    CutExact(ctx, file, chunks);
    LoadExact(ctx, file, chunks, steps);
  }
}
