/** Dictionary files, written and loaded: the parallel loader gives back what a file in
    its format says, for every cut and schedule. */
module DictionaryFile {
  import opened Text
  import opened Loader

  /** One word and the numbers written behind it. */
  datatype Entry = Entry(key: Bytes, numbers: seq<real>)

  /** Any notation for numbers. */
  type Notation = real -> Bytes

  function Shown(show: Notation, numbers: seq<real>): (texts: seq<Bytes>)
    ensures |texts| == |numbers|
  {
    seq(|numbers|, i requires 0 <= i < |numbers| => show(numbers[i]))
  }

  function LineFor(show: Notation, e: Entry): Bytes {
    Join(SPACE, [e.key] + Shown(show, e.numbers))
  }

  /** A header line, then a line for each entry. */
  function FileFor(header: Bytes, show: Notation, entries: seq<Entry>): (file: Bytes)
    ensures file != [] && EndsLine(file)
  {
    if entries == [] then header + [NEWLINE]
    else
      var n := |entries| - 1;
      FileFor(header, show, entries[..n]) + (LineFor(show, entries[n]) + [NEWLINE])
  }

  predicate Plain(text: Bytes) {
    Free(SPACE, text) && Free(NEWLINE, text) && Free(CARRIAGE_RETURN, text)
  }

  /** The numbers read back, they are at most as many as the dimension, and the line is
      shorter than 2^20 bytes. */
  predicate Writable(ctx: Context, show: Notation, e: Entry) {
    && Plain(e.key) && |e.numbers| <= ctx.dim && |LineFor(show, e)| < 1048576
    && forall i :: 0 <= i < |e.numbers| ==>
         Plain(show(e.numbers[i])) && ctx.parse(show(e.numbers[i])) == Some(e.numbers[i])
  }

  /** The vector holds the entry's numbers in order and zeros behind them. */
  predicate Holds(ctx: Context, e: Entry, vec: seq<real>) {
    && |vec| == ctx.dim && |e.numbers| <= ctx.dim && vec[..|e.numbers|] == e.numbers
    && forall j :: |e.numbers| <= j < |vec| ==> vec[j] == 0.0
  }

  // ---------------------------------------------------------------------- one line

  lemma {:induction false} JoinFree(sep: Byte, other: Byte, ms: seq<Bytes>)
    requires sep != other && AllFree(other, ms)
    ensures Free(other, Join(sep, ms))
  {
    if |ms| > 1 {
      JoinFree(sep, other, ms[1..]);
    }
  }

  lemma LineElements(ctx: Context, show: Notation, e: Entry)
    requires Writable(ctx, show, e)
    ensures Free(NEWLINE, LineFor(show, e))
    ensures Elements(LineFor(show, e)) == [e.key] + Shown(show, e.numbers)
  {
    var parts := [e.key] + Shown(show, e.numbers);
    assert forall i :: 0 <= i < |parts| ==> Plain(parts[i]);
    JoinFree(SPACE, NEWLINE, parts);
    JoinFree(SPACE, CARRIAGE_RETURN, parts);
    SplitJoinFree(SPACE, parts);
  }

  lemma LineGood(ctx: Context, show: Notation, e: Entry)
    requires Writable(ctx, show, e)
    ensures GoodLine(ctx, LineFor(show, e))
    ensures var p := PairOf(ctx, Elements(LineFor(show, e)));
            p.key == e.key && Holds(ctx, e, p.vec)
  {
    LineElements(ctx, show, e);
    var es := [e.key] + Shown(show, e.numbers);
    assert forall i :: 1 <= i < |es| ==> es[i] == show(e.numbers[i - 1]);
    assert PairOf(ctx, es).vec[..|e.numbers|] == e.numbers;
  }

  // --------------------------------------------------------------------- one file

  function LinesFor(show: Notation, entries: seq<Entry>): (lines: seq<Bytes>)
    ensures |lines| == |entries|
  {
    seq(|entries|, i requires 0 <= i < |entries| => LineFor(show, entries[i]))
  }

  ghost predicate AllWritable(ctx: Context, show: Notation, entries: seq<Entry>) {
    forall i :: 0 <= i < |entries| ==> Writable(ctx, show, entries[i])
  }

  lemma {:induction false} FileLines(ctx: Context, header: Bytes, show: Notation, entries: seq<Entry>)
    requires Free(NEWLINE, header) && AllWritable(ctx, show, entries)
    ensures Lines(FileFor(header, show, entries)) == [header] + LinesFor(show, entries)
    decreases |entries|
  {
    if entries == [] {
      OneLine(header);
    } else {
      var n := |entries| - 1;
      FileLines(ctx, header, show, entries[..n]);
      LineElements(ctx, show, entries[n]);
      LinesSnoc(FileFor(header, show, entries[..n]), LineFor(show, entries[n]));
      LinesForSnoc(header, show, entries);
    }
  }

  lemma LinesForSnoc(header: Bytes, show: Notation, entries: seq<Entry>)
    requires entries != []
    ensures var n := |entries| - 1;
            [header] + LinesFor(show, entries)
            == ([header] + LinesFor(show, entries[..n])) + [LineFor(show, entries[n])]
  {
  }

  lemma LinesGood(ctx: Context, show: Notation, entries: seq<Entry>)
    requires AllWritable(ctx, show, entries)
    ensures AllGood(ctx, LinesFor(show, entries))
    ensures var ps := Contribution(ctx, LinesFor(show, entries));
            |ps| == |entries|
            && forall i :: 0 <= i < |ps| ==> ps[i].key == entries[i].key && Holds(ctx, entries[i], ps[i].vec)
  {
    forall i | 0 <= i < |entries|
      ensures GoodLine(ctx, LinesFor(show, entries)[i])
      ensures var p := PairOf(ctx, Elements(LinesFor(show, entries)[i]));
              p.key == entries[i].key && Holds(ctx, entries[i], p.vec)
    {
      LineGood(ctx, show, entries[i]);
    }
  }

  /** One worker over the file emits one pair per entry, and does not stop early. */
  lemma FileOutput(ctx: Context, header: Bytes, show: Notation, entries: seq<Entry>)
    requires Free(NEWLINE, header) && |header| < 1048576 && AllWritable(ctx, show, entries)
    ensures WellFormed(ctx, FileFor(header, show, entries))
    ensures var ps := Output(ctx, FileFor(header, show, entries), true);
            |ps| == |entries|
            && forall i :: 0 <= i < |ps| ==> ps[i].key == entries[i].key && Holds(ctx, entries[i], ps[i].vec)
  {
    var file := FileFor(header, show, entries);
    FileLines(ctx, header, show, entries);
    assert Body(file, true) == LinesFor(show, entries);
    LinesGood(ctx, show, entries);
  }

  // ------------------------------------------------------------------ the round trip

  ghost predicate DistinctEntries(entries: seq<Entry>) {
    forall i, j :: 0 <= i < j < |entries| ==> entries[i].key != entries[j].key
  }

  /** The dictionary has an entry for each of these and no other. */
  ghost predicate Says(ctx: Context, dict: Dict, entries: seq<Entry>) {
    && (forall i :: 0 <= i < |entries| ==> entries[i].key in dict && Holds(ctx, entries[i], dict[entries[i].key]))
    && (forall k :: k in dict ==> exists i :: 0 <= i < |entries| && entries[i].key == k)
  }

  lemma StoreSays(ctx: Context, ps: seq<Pair>, entries: seq<Entry>)
    requires |ps| == |entries| && DistinctKeys(ps)
    requires forall i :: 0 <= i < |ps| ==> ps[i].key == entries[i].key && Holds(ctx, entries[i], ps[i].vec)
    ensures Says(ctx, Store(ps), entries)
  {
    forall i | 0 <= i < |entries|
      ensures entries[i].key in Store(ps) && Holds(ctx, entries[i], Store(ps)[entries[i].key])
    {
      StoreIsLast(ps, i);
    }
    forall k | k in Store(ps) ensures exists i :: 0 <= i < |entries| && entries[i].key == k {
      var i := StoreKey(ps, k);
    }
  }

  /** Writing a dictionary and loading it gives it back, whatever the notation of numbers,
      the cut of the file and the schedule of workers and consumer: each word with its
      numbers, zeros behind them up to the dimension, and no other word. */
  lemma WrittenLoads(ctx: Context, header: Bytes, show: Notation, entries: seq<Entry>, chunks: seq<Bytes>, steps: seq<Step>)
    requires Free(NEWLINE, header) && |header| < 1048576
    requires AllWritable(ctx, show, entries) && DistinctEntries(entries)
    requires Chunking(FileFor(header, show, entries), chunks) && Finishes(Outputs(ctx, chunks), steps)
    ensures Says(ctx, Result(Outputs(ctx, chunks), steps), entries)
  {
    var file := FileFor(header, show, entries);
    FileOutput(ctx, header, show, entries);
    ParallelEqualsSequential(ctx, file, chunks, steps);
    StoreSays(ctx, Output(ctx, file, true), entries);
  }
}
