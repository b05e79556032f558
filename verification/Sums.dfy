module Sums {

  function Sum(values: seq<int>): int {
    if values == [] then 0 else Sum(values[..|values| - 1]) + values[|values| - 1]
  }

  lemma {:induction false} SumAppend(a: seq<int>, b: seq<int>)
    ensures Sum(a + b) == Sum(a) + Sum(b)
  {
    if b == [] {
      assert a + b == a;
    } else {
      var n := |b| - 1;
      assert (a + b)[..|a| + n] == a + b[..n];
      SumAppend(a, b[..n]);
    }
  }

  /** Taking one value out of the list takes it out of the sum. */
  lemma SumWithout(values: seq<int>, i: nat)
    requires i < |values|
    ensures Sum(values[..i] + values[i + 1..]) == Sum(values) - values[i]
  {
    var a, b := values[..i], values[i + 1..];
    SumAppend(a, b);
    SumAppend(values[..i + 1], b);
    assert values == values[..i + 1] + b && values[..i + 1][..i] == a;
  }

  lemma MultisetWithout(values: seq<int>, i: nat)
    requires i < |values|
    ensures multiset(values) == multiset(values[..i] + values[i + 1..]) + multiset{values[i]}
  {
    assert values == values[..i] + [values[i]] + values[i + 1..];
  }

  /** The same values less their last, and less an equal one anywhere else. */
  lemma RestPermuted(a: seq<int>, b: seq<int>) returns (i: nat)
    requires multiset(a) == multiset(b) && a != []
    ensures i < |b| && b[i] == a[|a| - 1]
    ensures multiset(a[..|a| - 1]) == multiset(b[..i] + b[i + 1..])
  {
    var n := |a| - 1;
    assert a[n] in multiset(b);
    i :| 0 <= i < |b| && b[i] == a[n];
    MultisetWithout(a, n);
    assert a[..n] + a[n + 1..] == a[..n];
    MultisetWithout(b, i);
    assert multiset(a[..n]) == multiset(a) - multiset{a[n]};
  }

  /** The order of the values does not matter. */
  lemma {:induction false} SumPermuted(a: seq<int>, b: seq<int>)
    requires multiset(a) == multiset(b)
    ensures Sum(a) == Sum(b) && |a| == |b|
    decreases |a|
  {
    assert |a| == |multiset(a)| == |multiset(b)| == |b|;
    if a != [] {
      var i := RestPermuted(a, b);
      SumWithout(b, i);
      SumPermuted(a[..|a| - 1], b[..i] + b[i + 1..]);
    }
  }
}
