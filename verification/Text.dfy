/** Byte strings: the parts of Go's bytes, strings and bufio packages that the
    chat client, the dictionary loader and the line counter rely on. */
module Text {

  type Byte = b: int | 0 <= b < 256
  type Bytes = seq<Byte>

  const NEWLINE: Byte := 10
  const CARRIAGE_RETURN: Byte := 13
  const SPACE: Byte := 32
  const HASH: Byte := 35

  // ---------------------------------------------------------------- splitting

  /** The message holds no separator byte. */
  predicate Free(sep: Byte, m: Bytes) {
    forall i :: 0 <= i < |m| ==> m[i] != sep
  }

  predicate AllFree(sep: Byte, ms: seq<Bytes>) {
    forall i :: 0 <= i < |ms| ==> Free(sep, ms[i])
  }

  /** strings.Split with a one-byte separator; also the browser's split on newline. */
  function Split(sep: Byte, s: Bytes): (parts: seq<Bytes>)
    ensures |parts| >= 1
  {
    if s == [] then [[]]
    else
      var rest := Split(sep, s[1..]);
      if s[0] == sep then [[]] + rest
      else [[s[0]] + rest[0]] + rest[1..]
  }

  /** Messages written one after another with one separator byte between them. */
  function Join(sep: Byte, ms: seq<Bytes>): (s: Bytes)
  {
    if ms == [] then []
    else if |ms| == 1 then ms[0]
    else ms[0] + [sep] + Join(sep, ms[1..])
  }

  lemma {:induction false} SplitFree(sep: Byte, m: Bytes)
    requires Free(sep, m)
    ensures Split(sep, m) == [m]
  {
    if m != [] {
      SplitFree(sep, m[1..]);
      assert [m[0]] + m[1..] == m;
    }
  }

  lemma {:induction false} SplitAtSeparator(sep: Byte, m: Bytes, rest: Bytes)
    requires Free(sep, m)
    ensures Split(sep, m + [sep] + rest) == [m] + Split(sep, rest)
  {
    var s := m + [sep] + rest;
    if m == [] {
      assert s[1..] == rest;
    } else {
      assert s[1..] == m[1..] + [sep] + rest;
      SplitAtSeparator(sep, m[1..], rest);
      assert [m[0]] + m[1..] == m;
    }
  }

  lemma {:induction false} SplitPartsFree(sep: Byte, s: Bytes)
    ensures AllFree(sep, Split(sep, s))
  {
    if s != [] {
      SplitPartsFree(sep, s[1..]);
    }
  }

  lemma {:induction false} SplitJoinFree(sep: Byte, ms: seq<Bytes>)
    requires ms != [] && AllFree(sep, ms)
    ensures Split(sep, Join(sep, ms)) == ms
  {
    if |ms| == 1 {
      SplitFree(sep, ms[0]);
    } else {
      SplitAtSeparator(sep, ms[0], Join(sep, ms[1..]));
      SplitJoinFree(sep, ms[1..]);
    }
  }

  /** A frame built from a batch splits back into that batch exactly when the
      batch is non-empty and no message holds the separator. */
  lemma SplitJoin(sep: Byte, ms: seq<Bytes>)
    ensures Split(sep, Join(sep, ms)) == ms <==> ms != [] && AllFree(sep, ms)
  {
    if ms != [] && AllFree(sep, ms) {
      SplitJoinFree(sep, ms);
    } else {
      SplitPartsFree(sep, Join(sep, ms));
    }
  }

  /** Splitting loses nothing: joining the parts gives the text back. */
  lemma {:induction false} JoinSplit(sep: Byte, s: Bytes)
    ensures Join(sep, Split(sep, s)) == s
  {
    if s != [] {
      var rest := Split(sep, s[1..]);
      JoinSplit(sep, s[1..]);
      if s[0] == sep {
        assert ([[]] + rest)[1..] == rest;
      } else {
        assert ([[s[0]] + rest[0]] + rest[1..])[1..] == rest[1..];
      }
    }
  }

  lemma {:induction false} JoinLength(sep: Byte, ms: seq<Bytes>, limit: nat)
    requires ms != []
    requires forall i :: 0 <= i < |ms| ==> |ms[i]| <= limit
    ensures |Join(sep, ms)| <= |ms| * limit + |ms| - 1
  {
    if |ms| > 1 {
      JoinLength(sep, ms[1..], limit);
    }
  }

  // ----------------------------------------------------------------- trimming

  /** Width of the Unicode white-space character (UTF-8) at position i; 0 if none. */
  function SpaceAt(s: Bytes, i: nat): (w: nat)
    requires i <= |s|
    ensures w <= 3 && i + w <= |s|
  {
    if i + 1 <= |s| && (9 <= s[i] <= 13 || s[i] == 32) then 1
    else if i + 2 <= |s| && s[i] == 0xC2 && (s[i + 1] == 0x85 || s[i + 1] == 0xA0) then 2
    else if i + 3 <= |s| && WideSpace(s[i], s[i + 1], s[i + 2]) then 3
    else 0
  }

  /** The three-byte white-space characters U+1680, U+2000-200A, U+2028, U+2029,
      U+202F, U+205F and U+3000. */
  predicate WideSpace(a: Byte, b: Byte, c: Byte) {
    || (a == 0xE1 && b == 0x9A && c == 0x80)
    || (a == 0xE2 && b == 0x80 && (0x80 <= c <= 0x8A || c == 0xA8 || c == 0xA9 || c == 0xAF))
    || (a == 0xE2 && b == 0x81 && c == 0x9F)
    || (a == 0xE3 && b == 0x80 && c == 0x80)
  }

  /** unicode.IsSpace, by code point. */
  predicate WhiteSpace(r: nat) {
    || 9 <= r <= 13 || r == 0x20 || r == 0x85 || r == 0xA0 || r == 0x1680 || 0x2000 <= r <= 0x200A
    || r == 0x2028 || r == 0x2029 || r == 0x202F || r == 0x205F || r == 0x3000
  }

  /** UTF-8 for code points of up to 16 bits. */
  function Utf8(r: nat): Bytes
    requires r < 0x10000
  {
    if r < 0x80 then [r]
    else if r < 0x800 then [0xC0 + r / 64, 0x80 + r % 64]
    else [0xE0 + r / 4096, 0x80 + r / 64 % 64, 0x80 + r % 64]
  }

  /** The code point is encoded at position i. */
  predicate Encoded(s: Bytes, i: nat, r: nat)
    requires i <= |s| && r < 0x10000
  {
    i + |Utf8(r)| <= |s| && s[i..i + |Utf8(r)|] == Utf8(r)
  }

  lemma EncodedIsSpace(s: Bytes, i: nat, r: nat)
    requires i <= |s| && WhiteSpace(r) && Encoded(s, i, r)
    ensures SpaceAt(s, i) == |Utf8(r)|
  {
    var e := s[i..i + |Utf8(r)|];
    assert e[0] == s[i];
    assert |e| > 1 ==> e[1] == s[i + 1];
    assert |e| > 2 ==> e[2] == s[i + 2];
  }

  lemma SpaceIsEncoded(s: Bytes, i: nat) returns (r: nat)
    requires i <= |s| && SpaceAt(s, i) > 0
    ensures WhiteSpace(r) && Encoded(s, i, r)
  {
    if SpaceAt(s, i) == 1 {
      r := s[i];
    } else if SpaceAt(s, i) == 2 {
      r := s[i + 1];
    } else {
      var a: int, b: int, c: int := s[i], s[i + 1], s[i + 2];
      r := (a - 0xE0) * 4096 + (b - 0x80) * 64 + (c - 0x80);
    }
  }

  /** The byte tests are right: there is a white-space character at i exactly when the
      encoding of a white-space code point is there, and its width is that encoding's. */
  lemma SpaceAtExact(s: Bytes, i: nat)
    requires i <= |s|
    ensures SpaceAt(s, i) > 0 <==> exists r: nat :: WhiteSpace(r) && Encoded(s, i, r)
    ensures forall r: nat :: WhiteSpace(r) && Encoded(s, i, r) ==> SpaceAt(s, i) == |Utf8(r)|
  {
    if SpaceAt(s, i) > 0 {
      var r := SpaceIsEncoded(s, i);
    }
    forall r: nat | WhiteSpace(r) && Encoded(s, i, r) ensures SpaceAt(s, i) == |Utf8(r)| {
      EncodedIsSpace(s, i, r);
    }
  }

  /** Width of the white-space character that ends at j and starts at lo or later. */
  function SpaceBefore(s: Bytes, lo: nat, j: nat): (w: nat)
    requires lo <= j <= |s|
    ensures w <= j - lo && (w > 0 ==> SpaceAt(s, j - w) == w)
  {
    if lo + 1 <= j && SpaceAt(s, j - 1) == 1 then 1
    else if lo + 2 <= j && SpaceAt(s, j - 2) == 2 then 2
    else if lo + 3 <= j && SpaceAt(s, j - 3) == 3 then 3
    else 0
  }

  /** s[i..j] is a run of white-space characters. */
  predicate Blank(s: Bytes, i: nat, j: nat)
    requires i <= j <= |s|
    decreases j - i
  {
    i == j || (SpaceAt(s, i) > 0 && i + SpaceAt(s, i) <= j && Blank(s, i + SpaceAt(s, i), j))
  }

  lemma {:induction false} BlankSnoc(s: Bytes, i: nat, j: nat, k: nat)
    requires i <= j < k <= |s| && Blank(s, i, j) && SpaceAt(s, j) == k - j
    ensures Blank(s, i, k)
    decreases j - i
  {
    if i < j {
      BlankSnoc(s, i + SpaceAt(s, i), j, k);
    }
  }

  /** Where the text starts after leading white space. */
  function TrimStart(s: Bytes, i: nat): (r: nat)
    requires i <= |s|
    ensures i <= r <= |s| && Blank(s, i, r) && SpaceAt(s, r) == 0
    decreases |s| - i
  {
    if SpaceAt(s, i) == 0 then i else TrimStart(s, i + SpaceAt(s, i))
  }

  /** Where the text ends before trailing white space. */
  function TrimEnd(s: Bytes, lo: nat, j: nat): (r: nat)
    requires lo <= j <= |s|
    ensures lo <= r <= j && SpaceBefore(s, lo, r) == 0 && Blank(s, r, j)
    decreases j - lo
  {
    var w := SpaceBefore(s, lo, j);
    if w == 0 then j
    else
      var r := TrimEnd(s, lo, j - w);
      BlankSnoc(s, r, j - w, j);
      r
  }

  /** bytes.TrimSpace and strings.TrimSpace: the text between two runs of white space. */
  function TrimSpace(s: Bytes): (r: Bytes)
    ensures |r| <= |s|
    ensures forall x :: x in r ==> x in s
  {
    var i := TrimStart(s, 0);
    s[i..TrimEnd(s, i, |s|)]
  }

  // -------------------------------------------------------------------- lines

  /** The raw lines bufio.ScanLines sees: cut at newlines, the newline removed, a
      last line without newline included, nothing after a final newline. */
  function Lines(s: Bytes): (ls: seq<Bytes>)
    ensures s != [] <==> ls != []
  {
    if s == [] then []
    else
      var rest := Lines(s[1..]);
      if s[0] == NEWLINE then [[]] + rest
      else if rest == [] then [[s[0]]]
      else [[s[0]] + rest[0]] + rest[1..]
  }

  /** s is empty or ends with a newline, so whatever follows starts a line. */
  predicate EndsLine(s: Bytes) {
    s == [] || s[|s| - 1] == NEWLINE
  }

  lemma {:induction false} LinesConcat(a: Bytes, b: Bytes)
    requires EndsLine(a)
    ensures Lines(a + b) == Lines(a) + Lines(b)
  {
    if a == [] {
      assert a + b == b;
    } else {
      assert (a + b)[1..] == a[1..] + b;
      LinesConcat(a[1..], b);
    }
  }

  lemma {:induction false} OpenLine(line: Bytes)
    requires Free(NEWLINE, line) && line != []
    ensures Lines(line) == [line]
  {
    if |line| > 1 {
      OpenLine(line[1..]);
      assert [line[0]] + line[1..] == line;
    } else {
      assert line[1..] == [] && [line[0]] == line;
    }
  }

  lemma {:induction false} OneLine(line: Bytes)
    requires Free(NEWLINE, line)
    ensures Lines(line + [NEWLINE]) == [line]
  {
    var s := line + [NEWLINE];
    if line == [] {
      assert s[1..] == [];
    } else {
      assert s[1..] == line[1..] + [NEWLINE];
      OneLine(line[1..]);
      assert [line[0]] + line[1..] == line;
    }
  }

  /** One more line: with its newline, even if it is empty; without one at the end of the
      text, unless it is empty. */
  lemma LinesSnoc(a: Bytes, line: Bytes)
    requires EndsLine(a) && Free(NEWLINE, line)
    ensures Lines(a + (line + [NEWLINE])) == Lines(a) + [line]
    ensures Lines(a + line) == Lines(a) + if line == [] then [] else [line]
  {
    OneLine(line);
    LinesConcat(a, line + [NEWLINE]);
    LinesConcat(a, line);
    if line != [] {
      OpenLine(line);
    }
  }

  function Concat<T>(parts: seq<seq<T>>): (r: seq<T>)
  {
    if parts == [] then [] else Concat(parts[..|parts| - 1]) + parts[|parts| - 1]
  }

  lemma {:induction false} ConcatEndsLine(chunks: seq<Bytes>)
    requires forall i :: 0 <= i < |chunks| ==> EndsLine(chunks[i])
    ensures EndsLine(Concat(chunks))
  {
    if chunks != [] {
      ConcatEndsLine(chunks[..|chunks| - 1]);
    }
  }
}
