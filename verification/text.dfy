/** String helpers shared by the backend and frontend models: substring
    search, ASCII case folding, whitespace trimming (Python `str.strip` and
    JavaScript `String.prototype.trim` differ in their whitespace sets),
    decimal rendering of integers, `join`/`split`, and the option-letter
    rendering `String.fromCharCode(65 + i)`. */
module Text {
  import opened Wrappers

  // ---------------------------------------------------------------------
  // Substrings

  /** `k in s` in Python, `s.includes(k)` in JavaScript. */
  predicate Contains(s: string, k: string) {
    exists i | 0 <= i <= |s| - |k| :: OccursAt(s, k, i)
  }

  /** `k` occurs in `s` starting at index `i`. */
  predicate OccursAt(s: string, k: string, i: int) {
    0 <= i <= |s| - |k| && s[i..i + |k|] == k
  }

  /** An occurrence of a longer keyword is an occurrence of its prefix. */
  lemma ContainsPrefix(s: string, k: string, rest: string)
    requires Contains(s, k + rest)
    ensures Contains(s, k)
  {
    var i :| 0 <= i <= |s| - |k + rest| && OccursAt(s, k + rest, i);
    assert s[i..i + |k|] == (k + rest)[..|k|];
    assert OccursAt(s, k, i);
  }

  // ---------------------------------------------------------------------
  // Case folding

  function LowerChar(c: char): char {
    if 'A' <= c <= 'Z' then (c as int + 32) as char else c
  }

  /** ASCII lower-casing, character by character. */
  function Lower(s: string): (r: string)
    ensures |r| == |s|
    ensures forall i :: 0 <= i < |s| ==> r[i] == LowerChar(s[i])
  {
    seq(|s|, i requires 0 <= i < |s| => LowerChar(s[i]))
  }

  // ---------------------------------------------------------------------
  // Whitespace trimming

  /** The characters Python's `str.isspace` accepts, which `str.strip()` removes. */
  const PyWhitespace: set<char> :=
    {'\t', '\n', 0x0B as char, 0x0C as char, '\r', 0x1C as char, 0x1D as char, 0x1E as char,
     0x1F as char, ' ', 0x85 as char, 0xA0 as char, 0x1680 as char, 0x2000 as char,
     0x2001 as char, 0x2002 as char, 0x2003 as char, 0x2004 as char, 0x2005 as char,
     0x2006 as char, 0x2007 as char, 0x2008 as char, 0x2009 as char, 0x200A as char,
     0x2028 as char, 0x2029 as char, 0x202F as char, 0x205F as char, 0x3000 as char}

  /** JavaScript's WhiteSpace and LineTerminator characters, which `trim()` removes. */
  const JsWhitespace: set<char> :=
    {'\t', '\n', 0x0B as char, 0x0C as char, '\r', ' ', 0xA0 as char, 0x1680 as char,
     0x2000 as char, 0x2001 as char, 0x2002 as char, 0x2003 as char, 0x2004 as char,
     0x2005 as char, 0x2006 as char, 0x2007 as char, 0x2008 as char, 0x2009 as char,
     0x200A as char, 0x2028 as char, 0x2029 as char, 0x202F as char, 0x205F as char,
     0x3000 as char, 0xFEFF as char}

  /** Number of leading characters of `s` that belong to `ws`. */
  function LeadingCount(s: string, ws: set<char>): (n: nat)
    ensures n <= |s|
    ensures forall i :: 0 <= i < n ==> s[i] in ws
    ensures n < |s| ==> s[n] !in ws
  {
    if |s| > 0 && s[0] in ws then 1 + LeadingCount(s[1..], ws) else 0
  }

  /** Number of trailing characters of `s` that belong to `ws`. */
  function TrailingCount(s: string, ws: set<char>): (n: nat)
    ensures n <= |s|
    ensures forall i :: |s| - n <= i < |s| ==> s[i] in ws
    ensures n < |s| ==> s[|s| - n - 1] !in ws
  {
    if |s| > 0 && s[|s| - 1] in ws then 1 + TrailingCount(s[..|s| - 1], ws) else 0
  }

  /** `s` with its leading and trailing `ws` characters removed: the result is
      a contiguous piece of `s`, everything cut away is whitespace, and the
      result neither starts nor ends with whitespace. */
  function Trim(s: string, ws: set<char>): (r: string)
    ensures var a := LeadingCount(s, ws);
            && a + |r| <= |s| && r == s[a..a + |r|]
            && (forall i :: a + |r| <= i < |s| ==> s[i] in ws)
    ensures |r| > 0 ==> r[0] !in ws && r[|r| - 1] !in ws
  {
    var a := LeadingCount(s, ws);
    var rest := s[a..];
    var r := rest[..|rest| - TrailingCount(rest, ws)];
    assert r == s[a..a + |r|];
    r
  }

  lemma {:induction false} AllLeading(s: string, ws: set<char>)
    requires forall k :: 0 <= k < |s| ==> s[k] in ws
    ensures LeadingCount(s, ws) == |s|
  {
    if |s| > 0 {
      AllLeading(s[1..], ws);
    }
  }

  /** Trimming leaves nothing exactly when every character is whitespace. */
  lemma TrimEmptyIff(s: string, ws: set<char>)
    ensures |Trim(s, ws)| == 0 <==> forall k :: 0 <= k < |s| ==> s[k] in ws
  {
    if forall k :: 0 <= k < |s| ==> s[k] in ws {
      AllLeading(s, ws);
    }
  }

  /** `r` occurs in `s` at `a`, with only `ws` characters before and after it. */
  predicate PaddedAt(s: string, r: string, a: int, ws: set<char>) {
    0 <= a <= |s| - |r| && s[a..a + |r|] == r
    && (forall i :: 0 <= i < a ==> s[i] in ws)
    && (forall i :: a + |r| <= i < |s| ==> s[i] in ws)
  }

  /** The trimmed string sits in `s` between a run of `ws` characters
      before it and one after it. */
  lemma TrimBounds(s: string, ws: set<char>)
    ensures exists a :: PaddedAt(s, Trim(s, ws), a, ws)
  {
    assert PaddedAt(s, Trim(s, ws), LeadingCount(s, ws), ws);
  }

  /** Only one piece of `s` with no `ws` character at either end can be
      padded by `ws` characters alone. */
  lemma PaddedUnique(s: string, r1: string, a1: int, r2: string, a2: int, ws: set<char>)
    requires PaddedAt(s, r1, a1, ws) && PaddedAt(s, r2, a2, ws)
    requires |r1| > 0 && r1[0] !in ws && r1[|r1| - 1] !in ws
    requires |r2| > 0 && r2[0] !in ws && r2[|r2| - 1] !in ws
    ensures r1 == r2
  {
    assert s[a1] == r1[0] && s[a2] == r2[0];
    assert s[a1 + |r1| - 1] == r1[|r1| - 1] && s[a2 + |r2| - 1] == r2[|r2| - 1];
    assert a1 == a2;
    assert |r1| == |r2|;
  }

  /** Python `s.strip()`. */
  function PyStrip(s: string): string {
    Trim(s, PyWhitespace)
  }

  /** JavaScript `s.trim()`. */
  function JsTrim(s: string): string {
    Trim(s, JsWhitespace)
  }

  /** Cutting whitespace off both ends of a string never changes whether a
      keyword without whitespace occurs in it. */
  lemma ContainsSlice(s: string, a: nat, b: nat, k: string, ws: set<char>)
    requires a <= b <= |s|
    requires forall i :: 0 <= i < a ==> s[i] in ws
    requires forall i :: b <= i < |s| ==> s[i] in ws
    requires |k| > 0
    requires forall j :: 0 <= j < |k| ==> k[j] !in ws
    ensures Contains(s[a..b], k) <==> Contains(s, k)
  {
    if Contains(s[a..b], k) {
      var j :| 0 <= j <= |s[a..b]| - |k| && OccursAt(s[a..b], k, j);
      OccursInSlice(s, a, b, k, j);
    }
    if Contains(s, k) {
      var j :| 0 <= j <= |s| - |k| && OccursAt(s, k, j);
      OccursInside(s, a, b, k, ws, j);
    }
  }

  /** An occurrence in a slice is an occurrence in the whole string. */
  lemma OccursInSlice(s: string, a: nat, b: nat, k: string, j: nat)
    requires a <= b <= |s| && OccursAt(s[a..b], k, j)
    ensures OccursAt(s, k, a + j)
  {
    SliceOfSlice(s, a, b, j, j + |k|);
  }

  /** An occurrence of a keyword without whitespace lies inside the part
      that is not cut off. */
  lemma OccursInside(s: string, a: nat, b: nat, k: string, ws: set<char>, j: nat)
    requires a <= b <= |s|
    requires forall i :: 0 <= i < a ==> s[i] in ws
    requires forall i :: b <= i < |s| ==> s[i] in ws
    requires |k| > 0
    requires forall j :: 0 <= j < |k| ==> k[j] !in ws
    requires OccursAt(s, k, j)
    ensures a <= j && j + |k| <= b && OccursAt(s[a..b], k, j - a)
  {
    assert s[j] == s[j..j + |k|][0] == k[0];
    assert s[j + |k| - 1] == s[j..j + |k|][|k| - 1] == k[|k| - 1];
    SliceOfSlice(s, a, b, j - a, j - a + |k|);
  }

  lemma SliceOfSlice<T>(s: seq<T>, a: nat, b: nat, i: nat, j: nat)
    requires a <= b <= |s| && i <= j <= b - a
    ensures s[a..b][i..j] == s[a + i..a + j]
  {
    var x, y := s[a..b][i..j], s[a + i..a + j];
    assert |x| == |y|;
    forall t | 0 <= t < |x| ensures x[t] == y[t] {
      assert x[t] == s[a..b][i + t] == s[a + i + t];
    }
  }

  /** Trimming never changes whether a keyword without whitespace occurs. */
  lemma ContainsTrim(s: string, k: string, ws: set<char>)
    requires |k| > 0
    requires forall j :: 0 <= j < |k| ==> k[j] !in ws
    ensures Contains(Trim(s, ws), k) <==> Contains(s, k)
  {
    var r := Trim(s, ws);
    var a := LeadingCount(s, ws);
    ContainsSlice(s, a, a + |r|, k, ws);
  }

  /** The two parts of a concatenation can be read back off it. */
  lemma PrefixSuffix(a: string, b: string)
    ensures (a + b)[..|a|] == a && (a + b)[|a|..] == b
  {
  }

  /** The first and last parts of a three-part concatenation. */
  lemma PrefixAndSuffix(a: string, k: string, b: string)
    ensures (a + k + b)[..|a|] == a
    ensures (a + k + b)[|a + k + b| - |b|..] == b
  {
  }

  /** A string occurs in any string built around it. */
  lemma ContainsInfix(a: string, k: string, b: string)
    ensures Contains(a + k + b, k)
  {
    assert (a + k + b)[|a|..|a| + |k|] == k;
    assert OccursAt(a + k + b, k, |a|);
  }

  /** An occurrence survives appending text on the right. */
  lemma ContainsExtend(a: string, k: string, b: string)
    requires Contains(a, k)
    ensures Contains(a + b, k)
  {
    var i :| 0 <= i <= |a| - |k| && OccursAt(a, k, i);
    assert (a + b)[i..i + |k|] == a[i..i + |k|];
    assert OccursAt(a + b, k, i);
  }

  /** A string occurs at the end of any string ending with it. */
  lemma ContainsEnd(a: string, k: string)
    ensures Contains(a + k, k)
  {
    assert (a + k)[|a|..|a| + |k|] == k;
    assert OccursAt(a + k, k, |a|);
  }

  /** An occurrence survives prepending text on the left. */
  lemma ContainsPrepend(a: string, b: string, k: string)
    requires Contains(b, k)
    ensures Contains(a + b, k)
  {
    var i :| 0 <= i <= |b| - |k| && OccursAt(b, k, i);
    assert (a + b)[|a| + i..|a| + i + |k|] == b[i..i + |k|];
    assert OccursAt(a + b, k, |a| + i);
  }

  /** The concatenation of a list of pieces (`"".join(xs)`). */
  function Concat(xs: seq<string>): string {
    if |xs| == 0 then "" else xs[0] + Concat(xs[1..])
  }

  lemma ConcatFront(xs: seq<string>)
    requires |xs| > 0
    ensures Concat(xs) == xs[0] + Concat(xs[1..])
  {
  }

  lemma ConcatFrontTwo(xs: seq<string>)
    requires |xs| >= 2
    ensures Concat(xs) == xs[0] + (xs[1] + Concat(xs[2..]))
  {
    ConcatFront(xs);
    ConcatFront(xs[1..]);
    assert xs[1..][1..] == xs[2..];
  }

  /** The first two parts of `a + (r + x) + rest` can be read back off it. */
  lemma FrontParts(a: string, r: string, x: string, rest: string)
    ensures var h := a + (r + x + rest);
            && |a| + |r| <= |h| && h[..|a|] == a && h[|a|..|a| + |r|] == r
  {
    var h := a + (r + x + rest);
    assert h == a + r + (x + rest);
    ThreeParts(a, r, x + rest);
  }

  lemma {:induction false} ConcatAppend(xs: seq<string>, ys: seq<string>)
    ensures Concat(xs + ys) == Concat(xs) + Concat(ys)
  {
    if |xs| == 0 {
      assert xs + ys == ys;
    } else {
      assert (xs + ys)[1..] == xs[1..] + ys;
      ConcatAppend(xs[1..], ys);
    }
  }

  /** Any run of consecutive pieces occurs in the concatenation. */
  lemma ConcatWindow(xs: seq<string>, i: nat, j: nat)
    requires i <= j <= |xs|
    ensures Contains(Concat(xs), Concat(xs[i..j]))
  {
    var a, m, b := xs[..i], xs[i..j], xs[j..];
    SliceThree(xs, i, j);
    ConcatAppend(a + m, b);
    ConcatAppend(a, m);
    ContainsInfix(Concat(a), Concat(m), Concat(b));
    ContainsSame(Concat(xs), Concat(a) + Concat(m) + Concat(b), Concat(m));
  }

  /** A non-empty sequence is its head followed by its tail, and appending
      to it appends to the tail. */
  lemma HeadTail<T>(a: seq<T>, b: seq<T>)
    requires |a| > 0
    ensures a == [a[0]] + a[1..] && a + b == [a[0]] + (a[1..] + b)
  {
  }

  lemma ConsAssoc<T>(x: T, y: seq<T>, z: seq<T>)
    ensures [x] + (y + z) == ([x] + y) + z
  {
  }

  lemma SliceThree<T>(xs: seq<T>, i: nat, j: nat)
    requires i <= j <= |xs|
    ensures xs == xs[..i] + xs[i..j] + xs[j..]
  {
  }

  lemma ContainsSame(s: string, t: string, k: string)
    requires s == t && Contains(t, k)
    ensures Contains(s, k)
  {
  }

  lemma {:induction false} ConcatLast(xs: seq<string>)
    requires |xs| > 0
    ensures Concat(xs) == Concat(xs[..|xs| - 1]) + xs[|xs| - 1]
  {
    var init, last := xs[..|xs| - 1], xs[|xs| - 1];
    assert xs == init + [last];
    ConcatAppend(init, [last]);
    assert [last][1..] == [];
    assert Concat([last]) == last + "";
  }

  /** Each piece occurs in the concatenation. */
  lemma ConcatPiece(xs: seq<string>, i: nat)
    requires i < |xs|
    ensures Contains(Concat(xs), xs[i])
  {
    ConcatWindow(xs, i, i + 1);
    var x := xs[i];
    assert xs[i..i + 1] == [x];
    assert [x][1..] == [];
    assert Concat([x]) == x + "";
    assert x + "" == x;
  }

  /** Three consecutive pieces occur together in the concatenation. */
  /** A piece of a concatenation occurs in any text built around it. */
  lemma ConcatPieceInside(a: string, xs: seq<string>, b: string, c: string, i: nat)
    requires i < |xs|
    ensures Contains(a + Concat(xs) + b + c, xs[i])
  {
    var s := a + Concat(xs) + b + c;
    assert s == a + Concat(xs) + (b + c);
    ContainsInfix(a, Concat(xs), b + c);
    ConcatPiece(xs, i);
    ContainsTransitive(s, Concat(xs), xs[i]);
  }

  lemma WindowOfThree(xs: seq<string>, i: nat, a: string, b: string, c: string)
    requires i + 3 <= |xs| && xs[i] == a && xs[i + 1] == b && xs[i + 2] == c
    ensures Contains(Concat(xs), a + b + c)
  {
    ConcatWindow(xs, i, i + 3);
    ConcatOfThree(xs[i..i + 3]);
  }

  lemma ConcatOfThree(w: seq<string>)
    requires |w| == 3
    ensures Concat(w) == w[0] + w[1] + w[2]
  {
    var u := w[1..];
    var v := u[1..];
    assert Concat(v[1..]) == "";
    assert Concat(v) == w[2] + "";
    assert Concat(u) == w[1] + Concat(v);
    assert Concat(w) == w[0] + Concat(u);
    assert w[2] + "" == w[2];
  }

  /** The parts of a three-part concatenation can be read back off it. */
  lemma ThreeParts(a: string, k: string, b: string)
    ensures var s := a + k + b;
            && s[..|a|] == a && s[|a|..|a| + |k|] == k && s[|a| + |k|..] == b
            && s[..|a|] + s[|a| + |k|..] == a + b
  {
  }

  /** The parts of a four-part concatenation, the last two read together. */
  lemma FourParts(a: string, k: string, c: string, d: string)
    ensures var s := a + k + c + d;
            && |s| == |a| + |k| + |c| + |d|
            && s[..|a|] == a && s[|a|..|a| + |k|] == k && s[|a| + |k|..] == c + d
            && s[|a| + |k| + |c|..] == d
  {
    var s := a + k + c + d;
    assert s == a + k + (c + d);
    ThreeParts(a, k, c + d);
  }

  /** A middle part, once cut out, leaves the two outer parts joined. */
  lemma InsertedMiddle(a: string, k: string, b: string, on: string, off: string)
    requires on == a + k + b && off == a + b
    ensures |a| + |k| <= |on| && on[|a|..|a| + |k|] == k && on[..|a|] + on[|a| + |k|..] == off
  {
    ThreeParts(a, k, b);
  }

  lemma ContainsTransitive(a: string, b: string, c: string)
    requires Contains(a, b) && Contains(b, c)
    ensures Contains(a, c)
  {
    var i :| 0 <= i <= |a| - |b| && OccursAt(a, b, i);
    var j :| 0 <= j <= |b| - |c| && OccursAt(b, c, j);
    SliceOfSlice(a, i, i + |b|, j, j + |c|);
    assert OccursAt(a, c, i + j);
  }

  /** `s.endsWith(e)`. */
  predicate EndsWith(s: string, e: string) {
    |e| <= |s| && s[|s| - |e|..] == e
  }

  /** A concatenation ends with whatever its last piece ends with. */
  lemma EndsWithSuffix(pre: string, xs: seq<string>, e: string)
    requires |xs| > 0 && EndsWith(xs[|xs| - 1], e)
    ensures EndsWith(pre + Concat(xs), e)
  {
    ConcatLast(xs);
    EndsWithAppended(Concat(xs[..|xs| - 1]), xs[|xs| - 1], e);
    EndsWithAppended(pre, Concat(xs), e);
  }

  /** Text prepended on the left keeps the ending. */
  lemma EndsWithAppended(x: string, y: string, e: string)
    requires EndsWith(y, e)
    ensures EndsWith(x + y, e)
  {
    assert (x + y)[|x + y| - |e|..] == y[|y| - |e|..];
  }

  /** A loop that appends the pieces from index `k` on to `text`. */
  function AppendFrom(text: string, xs: seq<string>, k: nat): string
    requires k <= |xs|
    decreases |xs| - k
  {
    if k == |xs| then text else AppendFrom(text + xs[k], xs, k + 1)
  }

  lemma {:induction false} AppendFromConcat(text: string, xs: seq<string>, k: nat)
    requires k <= |xs|
    ensures AppendFrom(text, xs, k) == text + Concat(xs[k..])
    decreases |xs| - k
  {
    if k == |xs| {
      assert xs[k..] == [];
    } else {
      AppendFromConcat(text + xs[k], xs, k + 1);
      assert xs[k..][1..] == xs[k + 1..];
    }
  }

  /** Lower-casing commutes with concatenation and leaves non-letters alone. */
  lemma LowerConcat(a: string, b: string)
    ensures Lower(a + b) == Lower(a) + Lower(b)
  {
  }

  // ---------------------------------------------------------------------
  // Decimal rendering of integers (`str(n)` in Python, `${n}` in JavaScript)

  predicate IsDigit(c: char) {
    '0' <= c <= '9'
  }

  predicate AllDigits(s: string) {
    forall i :: 0 <= i < |s| ==> IsDigit(s[i])
  }

  function DigitChar(d: nat): (c: char)
    requires d < 10
    ensures IsDigit(c) && c as int - '0' as int == d
  {
    ('0' as int + d) as char
  }

  function NatToString(n: nat): (r: string)
    ensures |r| > 0 && AllDigits(r)
  {
    if n < 10 then [DigitChar(n)] else NatToString(n / 10) + [DigitChar(n % 10)]
  }

  function IntToString(x: int): string {
    if x < 0 then "-" + NatToString(-x) else NatToString(x)
  }

  /** The number a string of decimal digits denotes. */
  function DigitsValue(s: string): nat
    requires AllDigits(s)
  {
    if |s| == 0 then 0 else DigitsValue(s[..|s| - 1]) * 10 + (s[|s| - 1] as int - '0' as int)
  }

  /** Reading back the decimal rendering gives the number. */
  lemma {:induction false} NatToStringRoundTrip(n: nat)
    ensures DigitsValue(NatToString(n)) == n
  {
    if n >= 10 {
      NatToStringRoundTrip(n / 10);
      var s := NatToString(n);
      assert s[..|s| - 1] == NatToString(n / 10);
    }
  }

  lemma NatToStringInjective(a: nat, b: nat)
    requires NatToString(a) == NatToString(b)
    ensures a == b
  {
    NatToStringRoundTrip(a);
    NatToStringRoundTrip(b);
  }

  // ---------------------------------------------------------------------
  // UTF-16 length

  /** Code units a character takes in UTF-16: one in the basic plane, two
      (a surrogate pair) above it. */
  function Utf16Units(c: char): nat {
    if c as int < 0x1_0000 then 1 else 2
  }

  /** JavaScript's `s.length`. */
  function Utf16Length(s: string): (n: nat)
    ensures |s| <= n <= 2 * |s|
  {
    if |s| == 0 then 0 else Utf16Units(s[0]) + Utf16Length(s[1..])
  }

  // ---------------------------------------------------------------------
  // Repetition, prefixes, sums

  /** `c.repeat(n)`. */
  function Repeat(c: char, n: nat): (r: string)
    ensures |r| == n && forall i :: 0 <= i < n ==> r[i] == c
  {
    seq(n, _ => c)
  }

  /** Python `s[:n]`, JavaScript `s.slice(0, n)` for `n >= 0`. */
  function Take(s: string, n: nat): (r: string)
    ensures |r| == if n < |s| then n else |s|
    ensures r <= s
  {
    if n < |s| then s[..n] else s
  }

  function Sum(xs: seq<int>): int {
    if |xs| == 0 then 0 else Sum(xs[..|xs| - 1]) + xs[|xs| - 1]
  }

  // ---------------------------------------------------------------------
  // Character search, join and split

  /** Index of the first `c` in `s` (`str.find`, `indexOf`, and the position
      of a key among a dict's keys). */
  function IndexOf<T(==)>(s: seq<T>, c: T): (r: Option<nat>)
    ensures r.Some? ==> r.value < |s| && s[r.value] == c
                        && forall j :: 0 <= j < r.value ==> s[j] != c
    ensures r.None? ==> forall j :: 0 <= j < |s| ==> s[j] != c
  {
    if |s| == 0 then None
    else if s[0] == c then Some(0)
    else match IndexOf(s[1..], c)
      case Some(k) => Some(k + 1)
      case None => None
  }

  /** Appending an element never moves an earlier first occurrence; the new
      one is found only when nothing before it matches. */
  lemma {:induction false} IndexOfAppend<T>(s: seq<T>, x: T, c: T)
    ensures IndexOf(s + [x], c)
            == if IndexOf(s, c).Some? then IndexOf(s, c) else if x == c then Some(|s|) else None
  {
    if |s| > 0 {
      assert (s + [x])[1..] == s[1..] + [x];
      IndexOfAppend(s[1..], x, c);
    }
  }

  /** Index of the last `c` in `s`. */
  function LastIndexOf(s: string, c: char): (r: Option<nat>)
    ensures r.Some? ==> r.value < |s| && s[r.value] == c
                        && forall j :: r.value < j < |s| ==> s[j] != c
    ensures r.None? ==> forall j :: 0 <= j < |s| ==> s[j] != c
  {
    if |s| == 0 then None
    else if s[|s| - 1] == c then Some(|s| - 1)
    else LastIndexOf(s[..|s| - 1], c)
  }

  /** `xs.join(sep)` (JavaScript) and `sep.join(xs)` (Python). */
  function Join(xs: seq<string>, sep: string): string {
    if |xs| == 0 then ""
    else if |xs| == 1 then xs[0]
    else xs[0] + sep + Join(xs[1..], sep)
  }

  /** `s.split(d)` for a one-character separator. */
  function Split(s: string, d: char): (r: seq<string>)
    ensures |r| > 0
    decreases |s|
  {
    match IndexOf(s, d)
    case None => [s]
    case Some(i) => [s[..i]] + Split(s[i + 1..], d)
  }

  predicate Free(s: string, d: char) {
    forall j :: 0 <= j < |s| ==> s[j] != d
  }

  lemma IndexOfAfterFree(a: string, d: char, b: string)
    requires Free(a, d)
    ensures IndexOf(a + [d] + b, d) == Some(|a|)
  {
    var s := a + [d] + b;
    assert s[|a|] == d;
    assert forall j :: 0 <= j < |a| ==> s[j] == a[j];
  }

  /** Splitting a join on a separator none of the pieces contains gives the
      pieces back. */
  lemma {:induction false} SplitJoin(xs: seq<string>, d: char)
    requires |xs| > 0
    requires forall i :: 0 <= i < |xs| ==> Free(xs[i], d)
    ensures Split(Join(xs, [d]), d) == xs
  {
    if |xs| == 1 {
      assert IndexOf(xs[0], d).None?;
    } else {
      var rest := Join(xs[1..], [d]);
      var s := xs[0] + [d] + rest;
      IndexOfAfterFree(xs[0], d, rest);
      assert s[..|xs[0]|] == xs[0];
      assert s[|xs[0]| + 1..] == rest;
      SplitJoin(xs[1..], d);
      assert [xs[0]] + xs[1..] == xs;
    }
  }

  /** Splitting three separator-free pieces joined by the separator. */
  lemma SplitThree(a: string, b: string, c: string, d: char)
    requires Free(a, d) && Free(b, d) && Free(c, d)
    ensures Split(a + [d] + b + [d] + c, d) == [a, b, c]
  {
    var xs := [a, b, c];
    var tail := [b, c];
    assert xs[1..] == tail;
    assert tail[1..] == [c];
    assert Join([c], [d]) == c;
    assert Join(tail, [d]) == b + [d] + c;
    assert Join(xs, [d]) == a + [d] + Join(tail, [d]);
    assert a + [d] + (b + [d] + c) == a + [d] + b + [d] + c;
    assert forall i :: 0 <= i < |xs| ==> Free(xs[i], d);
    SplitJoin(xs, d);
  }

  /** Joining the pieces of a split restores the string. */
  lemma {:induction false} JoinSplit(s: string, d: char)
    ensures Join(Split(s, d), [d]) == s
    decreases |s|
  {
    match IndexOf(s, d)
    case None =>
    case Some(i) =>
      JoinSplit(s[i + 1..], d);
      var xs := Split(s, d);
      assert xs == [s[..i]] + Split(s[i + 1..], d);
      assert xs[0] == s[..i] && xs[1..] == Split(s[i + 1..], d);
      assert Join(xs, [d]) == s[..i] + [d] + s[i + 1..];
      assert s == s[..i] + [d] + s[i + 1..];
  }

  // ---------------------------------------------------------------------
  // Option letters

  /** `String.fromCharCode(65 + i)`: the UTF-16 code unit `(65 + i) mod 2^16`.
      A lone surrogate cannot be a Dafny `char`; it is represented by U+FFFD. */
  function Letter(i: int): (r: string)
    ensures |r| == 1
    ensures 0 <= i < 26 ==> r[0] == ('A' as int + i) as char
  {
    var code := (65 + i) % 0x1_0000;
    if 0xD800 <= code < 0xE000 then [0xFFFD as char] else [code as char]
  }

  /** One letter per option index. */
  function LetterList(ixs: seq<int>): (r: seq<string>)
    ensures |r| == |ixs| && forall k :: 0 <= k < |ixs| ==> r[k] == Letter(ixs[k])
  {
    if |ixs| == 0 then [] else [Letter(ixs[0])] + LetterList(ixs[1..])
  }

  /** `ixs.map(i => String.fromCharCode(65 + i)).join(', ')`. */
  function Letters(ixs: seq<int>): string {
    Join(LetterList(ixs), ", ")
  }

  /** Reads a `", "`-separated letter list back into option indices. */
  function ReadLetters(s: string): seq<int>
    decreases |s|
  {
    if |s| == 0 then []
    else [s[0] as int - 'A' as int] + (if |s| <= 3 then [] else ReadLetters(s[3..]))
  }

  /** Letters in the alphabet range read back as the indices they render. */
  lemma {:induction false} LettersRoundTrip(ixs: seq<int>)
    requires forall k :: 0 <= k < |ixs| ==> 0 <= ixs[k] < 26
    ensures ReadLetters(Letters(ixs)) == ixs
  {
    if |ixs| == 1 {
      assert LetterList(ixs) == [Letter(ixs[0])];
    } else if |ixs| > 1 {
      LettersFront(ixs);
      LettersRoundTrip(ixs[1..]);
      ReadLettersFront(Letter(ixs[0]), ", ", Letters(ixs[1..]));
      assert [ixs[0]] + ixs[1..] == ixs;
    }
  }

  /** A list of two or more letters is its first letter, ", ", and the rest. */
  lemma LettersFront(ixs: seq<int>)
    requires |ixs| > 1
    ensures Letters(ixs) == Letter(ixs[0]) + ", " + Letters(ixs[1..])
    ensures |Letters(ixs[1..])| > 0
  {
    assert LetterList(ixs)[1..] == LetterList(ixs[1..]);
    assert LetterList(ixs[1..])[0] == Letter(ixs[1]);
    if |ixs| > 2 {
      assert LetterList(ixs[1..])[1..] == LetterList(ixs[1..][1..]);
    }
  }

  /** Reading skips one letter and the two characters after it and goes on
      with the rest. */
  lemma ReadLettersFront(x: string, sep: string, rest: string)
    requires |x| == 1 && |sep| == 2 && |rest| > 0
    ensures ReadLetters(x + sep + rest) == [x[0] as int - 'A' as int] + ReadLetters(rest)
  {
    var a := x + sep;
    DropPrefix(a, rest);
    DropPrefix(x, sep);
    ReadLettersStep(a + rest);
  }

  lemma ReadLettersStep(s: string)
    requires |s| > 3
    ensures ReadLetters(s) == [s[0] as int - 'A' as int] + ReadLetters(s[3..])
  {
  }

  lemma DropPrefix(a: string, b: string)
    ensures (a + b)[|a|..] == b && (|a| > 0 ==> (a + b)[0] == a[0])
  {
  }

  /** Distinct indices in the alphabet range get distinct letters. */
  lemma LetterInjective(i: int, j: int)
    requires 0 <= i < 26 && 0 <= j < 26
    requires Letter(i) == Letter(j)
    ensures i == j
  {
    assert Letter(i)[0] == Letter(j)[0];
  }
}
