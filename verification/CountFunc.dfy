/** Counting the func lines of many files by map-reduce: the line filter and matcher of
    one file, and the reducer with its limit. */
module CountFunc {
  import opened Sums
  import opened Text

  /** The word "func". */
  const FUNC: Bytes := [102, 117, 110, 99]

  predicate HasPrefix(s: Bytes, p: Bytes) {
    |p| <= |s| && s[..|p|] == p
  }

  // ---------------------------------------------------------------------- lines

  /** Position of the first newline, or the length. */
  function NewlineAt(s: Bytes): (i: nat)
    ensures i <= |s| && (i < |s| ==> s[i] == NEWLINE)
    ensures forall k :: 0 <= k < i ==> s[k] != NEWLINE
  {
    if s == [] || s[0] == NEWLINE then 0 else 1 + NewlineAt(s[1..])
  }

  /** The lines ReadString('\\n') returns before the end of the file, newline included;
      text after the last newline is not among them. */
  function Terminated(s: Bytes): (ls: seq<Bytes>)
    decreases |s|
  {
    var i := NewlineAt(s);
    if i == |s| then [] else [s[..i + 1]] + Terminated(s[i + 1..])
  }

  /** The text after the last newline. */
  function Tail(s: Bytes): Bytes
    decreases |s|
  {
    var i := NewlineAt(s);
    if i == |s| then s else Tail(s[i + 1..])
  }

  lemma {:induction false} ConcatCons<T>(head: seq<T>, parts: seq<seq<T>>)
    ensures Concat([head] + parts) == head + Concat(parts)
  {
    var whole := [head] + parts;
    if parts == [] {
      assert whole[..0] == [] && Concat(whole[..0]) == [];
    } else {
      var n := |parts| - 1;
      assert whole[..|whole| - 1] == [head] + parts[..n];
      ConcatCons(head, parts[..n]);
    }
  }

  /** The line has one newline, at its end. */
  predicate Ended(line: Bytes) {
    line != [] && line[|line| - 1] == NEWLINE && Free(NEWLINE, line[..|line| - 1])
  }

  lemma {:induction false} TerminatedEnded(s: Bytes)
    ensures forall k :: 0 <= k < |Terminated(s)| ==> Ended(Terminated(s)[k])
    ensures Free(NEWLINE, Tail(s))
    decreases |s|
  {
    var i := NewlineAt(s);
    if i < |s| {
      TerminatedEnded(s[i + 1..]);
      assert Ended(s[..i + 1]);
    }
  }

  lemma Regroup(a: Bytes, b: Bytes, c: Bytes)
    ensures a + (b + c) == (a + b) + c
  {
  }

  lemma {:induction false} TerminatedConcat(s: Bytes)
    ensures s == Concat(Terminated(s)) + Tail(s)
    decreases |s|
  {
    var i := NewlineAt(s);
    if i == |s| {
      assert Concat<Byte>([]) == [];
    } else {
      var line, rest := s[..i + 1], s[i + 1..];
      assert s == line + rest;
      TerminatedConcat(rest);
      ConcatCons(line, Terminated(rest));
      Regroup(line, Concat(Terminated(rest)), Tail(rest));
    }
  }

  /** The lines make up the file but for a last one without newline, which is not counted;
      each has its only newline at its end. */
  lemma TerminatedExact(s: Bytes)
    ensures s == Concat(Terminated(s)) + Tail(s) && Free(NEWLINE, Tail(s))
    ensures forall k :: 0 <= k < |Terminated(s)| ==> Ended(Terminated(s)[k])
  {
    TerminatedConcat(s);
    TerminatedEnded(s);
  }

  /** White space, then "func": said without trimming. */
  ghost predicate FuncLine(line: Bytes) {
    exists k: nat :: k + 4 <= |line| && Blank(line, 0, k) && FuncAt(line, k)
  }

  predicate FuncAt(line: Bytes, k: nat)
    requires k + 4 <= |line|
  {
    line[k] == 'f' as int && line[k + 1] == 'u' as int && line[k + 2] == 'n' as int && line[k + 3] == 'c' as int
  }

  lemma FuncSpelled(line: Bytes, k: nat)
    requires k + 4 <= |line|
    ensures FuncAt(line, k) <==> line[k..k + 4] == FUNC
  {
    var word := line[k..k + 4];
    assert word[0] == line[k] && word[1] == line[k + 1] && word[2] == line[k + 2] && word[3] == line[k + 3];
  }

  /** A direct count of the func lines of a file. */
  ghost function DirectCount(lines: seq<Bytes>): nat {
    if lines == [] then 0 else (if FuncLine(lines[0]) then 1 else 0) + DirectCount(lines[1..])
  }

  lemma {:induction false} TrimStartUnique(s: Bytes, i: nat, k: nat)
    requires i <= k <= |s| && Blank(s, i, k) && SpaceAt(s, k) == 0
    ensures TrimStart(s, i) == k
    decreases k - i
  {
    if i < k {
      TrimStartUnique(s, i + SpaceAt(s, i), k);
    }
  }

  /** No byte of a white-space character is a plain letter. */
  lemma SpaceHasNoLetter(s: Bytes, i: nat, p: nat)
    requires i <= p < |s| && p < i + SpaceAt(s, i)
    ensures !(97 <= s[p] <= 122)
  {
  }

  /** Trimming the end stops at a letter. */
  lemma {:induction false} TrimEndStopsAtLetter(s: Bytes, lo: nat, j: nat, p: nat)
    requires lo <= p < j <= |s| && 97 <= s[p] <= 122
    ensures TrimEnd(s, lo, j) > p
    decreases j
  {
    var w := SpaceBefore(s, lo, j);
    if w > 0 {
      if p >= j - w {
        SpaceHasNoLetter(s, j - w, p);
      }
      TrimEndStopsAtLetter(s, lo, j - w, p);
    }
  }

  lemma MatchedIsFuncLine(line: Bytes)
    requires HasPrefix(TrimSpace(line), FUNC)
    ensures FuncLine(line)
  {
    var i := TrimStart(line, 0);
    var j := TrimEnd(line, i, |line|);
    assert line[i..i + 4] == line[i..j][..4] == FUNC;
    FuncSpelled(line, i);
    assert Blank(line, 0, i);
  }

  lemma FuncLineIsMatched(line: Bytes, k: nat)
    requires k + 4 <= |line| && Blank(line, 0, k) && FuncAt(line, k)
    ensures HasPrefix(TrimSpace(line), FUNC)
  {
    FuncSpelled(line, k);
    TrimStartUnique(line, 0, k);
    TrimEndStopsAtLetter(line, k, |line|, k + 3);
    assert line[k..TrimEnd(line, k, |line|)][..4] == line[k..k + 4];
  }

  /** The mapper's test, a trimmed line that starts with func, finds the func lines. */
  lemma MatcherExact(line: Bytes)
    ensures HasPrefix(TrimSpace(line), FUNC) <==> FuncLine(line)
  {
    if HasPrefix(TrimSpace(line), FUNC) {
      MatchedIsFuncLine(line);
    }
    if FuncLine(line) {
      var k: nat :| k + 4 <= |line| && Blank(line, 0, k) && FuncAt(line, k);
      FuncLineIsMatched(line, k);
    }
  }

  /** A line that starts with # is no func line, so filtering such lines out changes
      nothing. */
  lemma HashLinesDoNotCount(line: Bytes)
    requires HasPrefix(line, [HASH])
    ensures !FuncLine(line)
  {
    assert line[0] == line[..1][0] == HASH;
    forall k: nat | k + 4 <= |line| && Blank(line, 0, k)
      ensures !FuncAt(line, k)
    {
      assert k == 0;
    }
  }

  /** enumerateLines and the mapper's loop over one file. */
  method CountFuncs(content: Bytes) returns (result: int)
    ensures result == DirectCount(Terminated(content))
  {
    result := 0;
    var rest := content;
    while NewlineAt(rest) < |rest|
      invariant result + DirectCount(Terminated(rest)) == DirectCount(Terminated(content))
      decreases |rest|
    {
      var i := NewlineAt(rest);
      var line := rest[..i + 1];
      ghost var all := Terminated(rest);
      rest := rest[i + 1..];
      assert all == [line] + Terminated(rest) && all[1..] == Terminated(rest);
      if HasPrefix(line, [HASH]) {
        HashLinesDoNotCount(line);
      } else {
        MatcherExact(line);
        if HasPrefix(TrimSpace(line), FUNC) {
          result := result + 1;
        }
      }
    }
  }

  // -------------------------------------------------------------------- reducer

  datatype Result = Wrote(total: int) | Cancelled

  /** Some proper prefix of the arriving counts already reaches a positive limit. */
  ghost predicate ReachesEarly(counts: seq<int>, maxFiles: int) {
    maxFiles > 0 && exists k :: 0 <= k < |counts| && Sum(counts[..k]) >= maxFiles
  }

  /** The reducer's loop: cancel when a further count arrives after the limit has been
      reached, otherwise write the sum of all counts. */
  method Reduce(counts: seq<int>, maxFiles: int) returns (r: Result)
    ensures r == if ReachesEarly(counts, maxFiles) then Cancelled else Wrote(Sum(counts))
  {
    var result := 0;
    var i := 0;
    while i < |counts|
      invariant 0 <= i <= |counts| && result == Sum(counts[..i])
      invariant maxFiles > 0 ==> forall k :: 0 <= k < i ==> Sum(counts[..k]) < maxFiles
    {
      if maxFiles > 0 && result >= maxFiles {
        return Cancelled;
      }
      assert counts[..i + 1][..i] == counts[..i];
      result := result + counts[i];
      i := i + 1;
    }
    assert counts[..|counts|] == counts;
    r := Wrote(result);
  }

  predicate Natural(counts: seq<int>) {
    forall i :: 0 <= i < |counts| ==> counts[i] >= 0
  }

  lemma {:induction false} PrefixSums(counts: seq<int>, k: nat, n: nat)
    requires Natural(counts) && k <= n <= |counts|
    ensures Sum(counts[..k]) <= Sum(counts[..n])
    decreases n
  {
    if k < n {
      PrefixSums(counts, k, n - 1);
      assert counts[..n][..n - 1] == counts[..n - 1];
    }
  }

  /** For real counts, whether the reducer cancels depends only on the total and on
      which count arrives last. */
  lemma CancelsByLast(counts: seq<int>, maxFiles: int)
    requires Natural(counts)
    ensures ReachesEarly(counts, maxFiles) <==>
              maxFiles > 0 && counts != [] && Sum(counts) - counts[|counts| - 1] >= maxFiles
  {
    if counts != [] {
      var n := |counts| - 1;
      forall k | 0 <= k <= n ensures Sum(counts[..k]) <= Sum(counts[..n]) {
        PrefixSums(counts, k, n);
      }
      assert Sum(counts[..n]) == Sum(counts) - counts[n];
    }
  }

  lemma PermutedNatural(a: seq<int>, b: seq<int>)
    requires multiset(a) == multiset(b) && Natural(a)
    ensures Natural(b)
  {
    forall i | 0 <= i < |b| ensures b[i] >= 0 {
      assert b[i] in multiset(a);
    }
  }

  /** Some arrival order is cancelled exactly when leaving out some one file still
      reaches the limit. */
  lemma SomeOrderCancels(counts: seq<int>, maxFiles: int)
    requires Natural(counts)
    ensures (exists order :: multiset(order) == multiset(counts) && ReachesEarly(order, maxFiles))
            <==> maxFiles > 0 && exists i :: 0 <= i < |counts| && Sum(counts) - counts[i] >= maxFiles
  {
    if order :| multiset(order) == multiset(counts) && ReachesEarly(order, maxFiles) {
      PermutedNatural(counts, order);
      CancelsByLast(order, maxFiles);
      SumPermuted(order, counts);
      assert order[|order| - 1] in multiset(counts);
      var i :| 0 <= i < |counts| && counts[i] == order[|order| - 1];
    }
    if maxFiles > 0 {
      if i :| 0 <= i < |counts| && Sum(counts) - counts[i] >= maxFiles {
        var order := counts[..i] + counts[i + 1..] + [counts[i]];
        MultisetWithout(counts, i);
        assert multiset(order) == multiset(counts);
        PermutedNatural(counts, order);
        SumPermuted(order, counts);
        CancelsByLast(order, maxFiles);
      }
    }
  }

  ghost function FileCounts(files: seq<Bytes>): (counts: seq<int>)
    ensures |counts| == |files| && Natural(counts)
  {
    seq(|files|, i requires 0 <= i < |files| => DirectCount(Terminated(files[i])) as int)
  }

  /** Below the limit, or with no limit, the files' counts may arrive in any order: the
      reducer writes the number of func lines of all files. */
  lemma OrderIndependent(files: seq<Bytes>, order: seq<int>, maxFiles: int)
    requires multiset(order) == multiset(FileCounts(files))
    requires maxFiles <= 0 || Sum(FileCounts(files)) < maxFiles
    ensures !ReachesEarly(order, maxFiles) && Sum(order) == Sum(FileCounts(files))
  {
    PermutedNatural(FileCounts(files), order);
    SumPermuted(order, FileCounts(files));
    CancelsByLast(order, maxFiles);
  }

  // ------------------------------------------------- the limit is not on files

  /** The reducer cancels exactly when more files arrive than the limit allows, which is
      what the flag announces. */
  ghost predicate LimitsFiles(counts: seq<int>, maxFiles: int) {
    ReachesEarly(counts, maxFiles) <==> 0 < maxFiles < |counts|
  }

  /** It does not: two files are cancelled at limit 3, four are not. */
  lemma LimitIsOnLines()
    ensures ReachesEarly([5, 0], 3) && !ReachesEarly([0, 0, 0, 0], 3)
  {
    assert Sum([5, 0][..1]) == Sum([]) + 5;
    CancelsByLast([0, 0, 0, 0], 3);
    AllEqualSum([0, 0, 0, 0], 0);
  }

  lemma {:induction false} AllEqualSum(counts: seq<int>, c: int)
    requires forall i :: 0 <= i < |counts| ==> counts[i] == c
    ensures Sum(counts) == |counts| * c
  {
    if counts != [] {
      AllEqualSum(counts[..|counts| - 1], c);
    }
  }

  /** One arrival order: every limit is a limit on files exactly when the files before the
      last have, together, as many func lines as there are of them. */
  lemma LimitExactInOrder(counts: seq<int>)
    requires Natural(counts) && counts != []
    ensures (forall m :: m > 0 ==> LimitsFiles(counts, m))
            <==> Sum(counts) - counts[|counts| - 1] == |counts| - 1
  {
    var front := Sum(counts) - counts[|counts| - 1];
    forall m | m > 0 ensures ReachesEarly(counts, m) <==> front >= m {
      CancelsByLast(counts, m);
    }
    if front != |counts| - 1 {
      var m := if front > |counts| - 1 then front else |counts| - 1;
      assert !(LimitsFiles(counts, m) && m > 0);
    }
  }

  lemma PutLast(counts: seq<int>, i: nat) returns (order: seq<int>)
    requires i < |counts|
    ensures multiset(order) == multiset(counts) && Sum(order) == Sum(counts)
    ensures |order| == |counts| && order[|order| - 1] == counts[i]
  {
    order := counts[..i] + counts[i + 1..] + [counts[i]];
    MultisetWithout(counts, i);
    SumPermuted(order, counts);
  }

  lemma OnesOnly(counts: seq<int>)
    requires |counts| > 1 && forall i :: 0 <= i < |counts| ==> Sum(counts) - counts[i] == |counts| - 1
    ensures forall i :: 0 <= i < |counts| ==> counts[i] == 1
  {
    var n, c := |counts|, counts[0];
    assert forall i :: 0 <= i < n ==> counts[i] == c;
    AllEqualSum(counts, c);
    assert (n - 1) * c == (n - 1) * 1;
    if c < 1 {
      Scaled(n - 1, c, 1);
    } else if c > 1 {
      Scaled(n - 1, 1, c);
    }
  }

  lemma {:induction false} Scaled(n: nat, a: int, b: int)
    requires n > 0 && a < b
    ensures n * a < n * b
  {
    if n > 1 {
      Scaled(n - 1, a, b);
    }
  }

  /** All arrival orders: every limit is a limit on files, whatever the order, exactly
      when there is at most one file or every file has exactly one func line. */
  lemma LimitExact(counts: seq<int>)
    requires Natural(counts)
    ensures (forall order, m :: multiset(order) == multiset(counts) && m > 0 ==> LimitsFiles(order, m))
            <==> |counts| <= 1 || forall i :: 0 <= i < |counts| ==> counts[i] == 1
  {
    if |counts| <= 1 || forall i :: 0 <= i < |counts| ==> counts[i] == 1 {
      forall order, m | multiset(order) == multiset(counts) && m > 0 ensures LimitsFiles(order, m) {
        LimitInEveryOrder(counts, order, m);
      }
    } else if forall order, m :: multiset(order) == multiset(counts) && m > 0 ==> LimitsFiles(order, m) {
      forall i | 0 <= i < |counts| ensures Sum(counts) - counts[i] == |counts| - 1 {
        var order := PutLast(counts, i);
        PermutedNatural(counts, order);
        LimitExactInOrder(order);
      }
      OnesOnly(counts);
      assert false;
    }
  }

  lemma LimitInEveryOrder(counts: seq<int>, order: seq<int>, m: int)
    requires Natural(counts) && multiset(order) == multiset(counts) && m > 0
    requires |counts| <= 1 || forall i :: 0 <= i < |counts| ==> counts[i] == 1
    ensures LimitsFiles(order, m)
  {
    PermutedNatural(counts, order);
    SumPermuted(order, counts);
    CancelsByLast(order, m);
    if |counts| > 1 {
      forall i | 0 <= i < |order| ensures order[i] == 1 {
        assert order[i] in multiset(counts);
      }
      AllEqualSum(order, 1);
    }
  }
}
