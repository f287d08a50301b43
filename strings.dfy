/**
 * The JavaScript string built-ins the CV site relies on, stated over
 * `seq<char>`: `startsWith`, `includes`, `indexOf`, `lastIndexOf`, `trim`,
 * `split` on one character, `Array.prototype.join`, the character class `\s`,
 * and the clean-up `replace(/[^\x20-\x7E\s]+/g, "")`.
 */
module Strings {

  /** Whitespace as JavaScript's `\s` and `String.prototype.trim` see it:
      the ASCII whitespace characters, the Unicode space separators, the line
      terminators and the byte-order mark. */
  predicate IsJsWhitespace(c: char) {
    c == '\t' || c == '\n' || c == '\U{0B}' || c == '\U{0C}' || c == '\r' || c == ' '
    || c == '\U{A0}' || c == '\U{1680}' || ('\U{2000}' <= c <= '\U{200A}')
    || c == '\U{2028}' || c == '\U{2029}' || c == '\U{202F}' || c == '\U{205F}'
    || c == '\U{3000}' || c == '\U{FEFF}'
  }

  predicate AllWhitespace(s: string) {
    forall i | 0 <= i < |s| :: IsJsWhitespace(s[i])
  }

  predicate IsAsciiDigit(c: char) {
    '0' <= c <= '9'
  }

  // ---------------------------------------------------------------------
  // Prefixes and occurrences

  predicate StartsWith(s: string, prefix: string) {
    |prefix| <= |s| && s[..|prefix|] == prefix
  }

  /** `p` occurs in `s` at index `i`. */
  predicate OccursAt(s: string, p: string, i: int) {
    0 <= i && i + |p| <= |s| && s[i..i + |p|] == p
  }

  /** `s.includes(p)` */
  predicate Contains(s: string, p: string) {
    exists i | 0 <= i <= |s| - |p| :: OccursAt(s, p, i)
  }

  function IndexOfFrom(s: string, p: string, k: nat): (r: int)
    decreases |s| - k
    ensures r == -1 || (k <= r && OccursAt(s, p, r))
    ensures r == -1 ==> forall j :: k <= j ==> !OccursAt(s, p, j)
    ensures r != -1 ==> forall j :: k <= j < r ==> !OccursAt(s, p, j)
  {
    if k + |p| > |s| then -1
    else if s[k..k + |p|] == p then k
    else IndexOfFrom(s, p, k + 1)
  }

  /** `s.indexOf(p)`: the first index at which `p` occurs, or -1. */
  function IndexOf(s: string, p: string): (r: int)
    ensures r == -1 <==> !Contains(s, p)
    ensures r != -1 ==> OccursAt(s, p, r) && forall j :: 0 <= j < r ==> !OccursAt(s, p, j)
  {
    IndexOfFrom(s, p, 0)
  }

  function LastIndexOfUpTo(s: string, p: string, k: int): (r: int)
    decreases k + 1
    ensures r == -1 || (r <= k && OccursAt(s, p, r))
    ensures forall j :: r < j <= k ==> !OccursAt(s, p, j)
  {
    if k < 0 then -1
    else if OccursAt(s, p, k) then k
    else LastIndexOfUpTo(s, p, k - 1)
  }

  /** `s.lastIndexOf(p)`: the last index at which `p` occurs, or -1. */
  function LastIndexOf(s: string, p: string): (r: int)
    ensures r == -1 <==> !Contains(s, p)
    ensures r != -1 ==> OccursAt(s, p, r) && forall j :: r < j ==> !OccursAt(s, p, j)
  {
    LastIndexOfUpTo(s, p, |s| - |p|)
  }

  lemma StartsWithOccurs(s: string, p: string)
    requires StartsWith(s, p)
    ensures OccursAt(s, p, 0) && Contains(s, p) && IndexOf(s, p) == 0
  {
    assert OccursAt(s, p, 0);
  }

  /** What occurs in a slice occurs in the whole string, shifted by the
      slice's start. */
  lemma OccursInSlice(s: string, p: string, a: nat, b: nat, i: int)
    requires a <= b <= |s|
    requires OccursAt(s[a..b], p, i)
    ensures OccursAt(s, p, a + i)
  {
    var t := s[a..b];
    forall j | i <= j < i + |p|
      ensures t[j] == s[a + j]
    {
    }
    assert t[i..i + |p|] == s[a + i..a + i + |p|];
  }

  /** A slice that starts past the last occurrence of `p` holds no
      occurrence of `p`. */
  lemma NoOccurrenceInSlice(s: string, p: string, a: nat, b: nat)
    requires a <= b <= |s|
    requires forall j :: a <= j ==> !OccursAt(s, p, j)
    ensures forall q :: !OccursAt(s[a..b], p, q)
    ensures !Contains(s[a..b], p)
  {
    var t := s[a..b];
    forall q | 0 <= q <= |t| - |p| ensures !OccursAt(t, p, q) {
      var u, v := t[q..q + |p|], s[a + q..a + q + |p|];
      forall j | 0 <= j < |p| ensures u[j] == v[j] {
        assert u[j] == t[q + j] == s[a + q + j];
      }
      assert u == v;
      assert !OccursAt(s, p, a + q);
    }
  }

  /** Occurrences in the second part of a concatenation are occurrences in
      that part, shifted by the length of the first. */
  lemma OccursInSuffix(a: string, b: string, p: string, j: int)
    requires 0 <= j
    ensures OccursAt(a + b, p, |a| + j) == OccursAt(b, p, j)
  {
    var s := a + b;
    if j + |p| <= |b| {
      var u, v := s[|a| + j..|a| + j + |p|], b[j..j + |p|];
      forall k | 0 <= k < |p| ensures u[k] == v[k] {
        assert u[k] == s[|a| + j + k] == b[j + k];
      }
      assert u == v;
    }
  }

  /** A one-character string occurs exactly where that character does. */
  lemma ContainsChar(s: string, c: char)
    ensures Contains(s, [c]) <==> c in s
  {
    if c in s {
      var i :| 0 <= i < |s| && s[i] == c;
      assert s[i..i + 1] == [c];
      assert OccursAt(s, [c], i);
    }
    forall i | 0 <= i <= |s| - 1 && OccursAt(s, [c], i) ensures c in s {
      assert s[i..i + 1][0] == s[i];
    }
  }

  lemma ContainsAppend(a: string, b: string, p: string)
    requires Contains(a, p) || Contains(b, p)
    ensures Contains(a + b, p)
  {
    var ab := a + b;
    if Contains(a, p) {
      var i :| 0 <= i <= |a| - |p| && OccursAt(a, p, i);
      assert ab[..|a|] == a;
      OccursInSlice(ab, p, 0, |a|, i);
    } else {
      var i :| 0 <= i <= |b| - |p| && OccursAt(b, p, i);
      assert ab[|a|..|ab|] == b;
      OccursInSlice(ab, p, |a|, |ab|, i);
    }
  }

  lemma ContainsSelf(s: string)
    ensures Contains(s, s)
  {
    assert OccursAt(s, s, 0);
  }

  // ---------------------------------------------------------------------
  // trim()

  function LeadingSpace(s: string): (n: nat)
    ensures n <= |s|
    ensures forall j :: 0 <= j < n ==> IsJsWhitespace(s[j])
    ensures n < |s| ==> !IsJsWhitespace(s[n])
  {
    if |s| > 0 && IsJsWhitespace(s[0]) then 1 + LeadingSpace(s[1..]) else 0
  }

  function TrailingSpace(s: string): (n: nat)
    ensures n <= |s|
    ensures forall j :: |s| - n <= j < |s| ==> IsJsWhitespace(s[j])
    ensures n < |s| ==> !IsJsWhitespace(s[|s| - n - 1])
  {
    if |s| > 0 && IsJsWhitespace(s[|s| - 1]) then 1 + TrailingSpace(s[..|s| - 1]) else 0
  }

  /** Where `Trim(s)` starts inside `s`. */
  function TrimStart(s: string): (a: nat)
    ensures a <= |s|
  {
    LeadingSpace(s)
  }

  /** `s.trim()`: `s` without its leading and trailing whitespace. The result
      is the slice of `s` that starts at `TrimStart(s)`, everything around it
      is whitespace, and it neither starts nor ends with whitespace. */
  function Trim(s: string): (r: string)
    ensures TrimStart(s) + |r| <= |s| && r == s[TrimStart(s)..TrimStart(s) + |r|]
    ensures AllWhitespace(s[..TrimStart(s)]) && AllWhitespace(s[TrimStart(s) + |r|..])
    ensures r != [] ==> !IsJsWhitespace(r[0]) && !IsJsWhitespace(r[|r| - 1])
    ensures r == [] <==> AllWhitespace(s)
  {
    var a := LeadingSpace(s);
    var t := s[a..];
    var r := t[..|t| - TrailingSpace(t)];
    TrimmedSlice(s, a, t, r);
    r
  }

  lemma LeadingSpaceIsWhitespace(s: string)
    ensures AllWhitespace(s[..LeadingSpace(s)])
  {
    var a := LeadingSpace(s);
    assert forall j | 0 <= j < a :: s[..a][j] == s[j];
  }

  lemma TrailingSpaceIsWhitespace(t: string)
    ensures AllWhitespace(t[|t| - TrailingSpace(t)..])
  {
    var b := |t| - TrailingSpace(t);
    assert forall j | 0 <= j < |t| - b :: t[b..][j] == t[b + j];
  }

  lemma TrimmedSlice(s: string, a: nat, t: string, r: string)
    requires a == LeadingSpace(s) && t == s[a..] && r == t[..|t| - TrailingSpace(t)]
    ensures a + |r| <= |s| && r == s[a..a + |r|]
    ensures AllWhitespace(s[..a]) && AllWhitespace(s[a + |r|..])
    ensures r != [] ==> !IsJsWhitespace(r[0]) && !IsJsWhitespace(r[|r| - 1])
    ensures r == [] <==> AllWhitespace(s)
  {
    LeadingSpaceIsWhitespace(s);
    TrailingSpaceIsWhitespace(t);
    assert s[a + |r|..] == t[|r|..];
    if r == [] {
      assert s == s[..a] + t[|r|..];
      AllWhitespaceAppend(s[..a], t[|r|..]);
    } else {
      assert r[0] == s[a];
      assert r[|r| - 1] == t[|t| - TrailingSpace(t) - 1];
    }
  }

  lemma AllWhitespaceAppend(x: string, y: string)
    requires AllWhitespace(x) && AllWhitespace(y)
    ensures AllWhitespace(x + y)
  {
  }

  lemma TrimIdempotent(s: string)
    ensures Trim(Trim(s)) == Trim(s)
  {
    if Trim(s) != [] {
      TrimOfTrimmed(Trim(s));
    }
  }

  /** Trimming only removes characters. */
  lemma CharNotInTrim(s: string, c: char)
    requires c !in s
    ensures c !in Trim(s)
  {
    var a := TrimStart(s);
    var t := Trim(s);
    forall k | 0 <= k < |t| ensures t[k] != c {
      assert t[k] == s[a + k];
    }
  }

  /** A string that neither starts nor ends with whitespace trims to itself. */
  lemma TrimOfTrimmed(s: string)
    requires s != [] && !IsJsWhitespace(s[0]) && !IsJsWhitespace(s[|s| - 1])
    ensures Trim(s) == s
  {
    assert LeadingSpace(s) == 0;
    assert s[0..] == s;
    assert TrailingSpace(s) == 0;
  }

  // ---------------------------------------------------------------------
  // replace(/[^\x20-\x7E\s]+/g, "")

  /** The characters the clean-up keeps: printable ASCII and whitespace. */
  predicate IsKept(c: char) {
    (' ' <= c <= '~') || IsJsWhitespace(c)
  }

  predicate AllKept(s: string) {
    forall i | 0 <= i < |s| :: IsKept(s[i])
  }

  /** Removes every character outside printable ASCII and whitespace,
      keeping the others in order. */
  function Strip(s: string): (r: string)
    ensures |r| <= |s|
    ensures AllKept(r)
  {
    if s == [] then []
    else if IsKept(s[|s| - 1]) then Strip(s[..|s| - 1]) + [s[|s| - 1]]
    else Strip(s[..|s| - 1])
  }

  lemma {:induction false} StripAppend(a: string, b: string)
    ensures Strip(a + b) == Strip(a) + Strip(b)
    decreases |b|
  {
    if b == [] {
      assert a + b == a;
    } else {
      var ab := a + b;
      var init, c := b[..|b| - 1], b[|b| - 1];
      assert ab[..|ab| - 1] == a + init;
      assert ab[|ab| - 1] == c;
      StripAppend(a, init);
      if IsKept(c) {
        assert Strip(ab) == Strip(a + init) + [c];
        assert Strip(b) == Strip(init) + [c];
        assert Strip(a) + Strip(init) + [c] == Strip(a) + (Strip(init) + [c]);
      } else {
        assert Strip(ab) == Strip(a + init);
        assert Strip(b) == Strip(init);
      }
    }
  }

  /** Text made only of kept characters passes through unchanged. */
  lemma {:induction false} StripKept(s: string)
    requires AllKept(s)
    ensures Strip(s) == s
    decreases |s|
  {
    if s != [] {
      StripKept(s[..|s| - 1]);
    }
  }

  lemma StripIdempotent(s: string)
    ensures Strip(Strip(s)) == Strip(s)
  {
    StripKept(Strip(s));
  }

  /** Every slice of a string of kept characters is made of kept characters. */
  lemma AllKeptSlice(s: string, a: nat, b: nat)
    requires AllKept(s) && a <= b <= |s|
    ensures AllKept(s[a..b])
  {
    forall i | 0 <= i < b - a ensures IsKept(s[a..b][i]) {
      assert s[a..b][i] == s[a + i];
    }
  }

  /** A string of kept characters contains no character that is not kept. */
  lemma NotContainsUnkept(s: string, p: string, k: nat)
    requires AllKept(s)
    requires k < |p| && !IsKept(p[k])
    ensures !Contains(s, p)
  {
    forall i | 0 <= i <= |s| - |p|
      ensures !OccursAt(s, p, i)
    {
      assert s[i..i + |p|][k] == s[i + k];
    }
  }

  // ---------------------------------------------------------------------
  // join() and split()

  /** `xs.join(sep)` */
  function Join(xs: seq<string>, sep: string): (r: string)
    ensures xs == [] ==> r == []
    ensures |xs| == 1 ==> r == xs[0]
  {
    if xs == [] then []
    else if |xs| == 1 then xs[0]
    else xs[0] + sep + Join(xs[1..], sep)
  }

  lemma {:induction false} JoinSnoc(xs: seq<string>, x: string, sep: string)
    requires xs != []
    ensures Join(xs + [x], sep) == Join(xs, sep) + sep + x
    decreases |xs|
  {
    if |xs| == 1 {
      assert xs + [x] == [xs[0], x];
    } else {
      assert (xs + [x])[1..] == xs[1..] + [x];
      JoinSnoc(xs[1..], x, sep);
    }
  }

  lemma JoinCons(x: string, xs: seq<string>, sep: string)
    requires xs != []
    ensures Join([x] + xs, sep) == x + sep + Join(xs, sep)
  {
    assert ([x] + xs)[1..] == xs;
  }

  /** Index of the first `c` in `s`, or `|s|` when there is none. */
  function FirstChar(s: string, c: char): (i: nat)
    ensures i <= |s|
    ensures i < |s| ==> s[i] == c
    ensures forall j :: 0 <= j < i ==> s[j] != c
  {
    if s == [] then 0
    else if s[0] == c then 0
    else 1 + FirstChar(s[1..], c)
  }

  /** `s.split(c)` for a one-character separator: the pieces between
      separators, in order, including empty ones. */
  function Split(s: string, c: char): (pieces: seq<string>)
    decreases |s|
    ensures pieces != []
    ensures forall k :: 0 <= k < |pieces| ==> c !in pieces[k]
  {
    var i := FirstChar(s, c);
    if i == |s| then
      assert c !in s;
      [s]
    else
      assert c !in s[..i];
      [s[..i]] + Split(s[i + 1..], c)
  }

  /** Splitting and re-joining with the separator gives back the text. */
  lemma {:induction false} SplitJoin(s: string, c: char)
    ensures Join(Split(s, c), [c]) == s
    decreases |s|
  {
    var i := FirstChar(s, c);
    if i < |s| {
      SplitJoin(s[i + 1..], c);
      JoinCons(s[..i], Split(s[i + 1..], c), [c]);
      assert s == s[..i] + [c] + s[i + 1..];
    }
  }

  /** Splitting a text whose first piece holds no separator. */
  lemma SplitCons(first: string, rest: string, c: char)
    requires c !in first
    ensures Split(first + [c] + rest, c) == [first] + Split(rest, c)
  {
    var s := first + [c] + rest;
    assert forall j | 0 <= j < |first| :: s[j] == first[j];
    assert s[|first|] == c;
    var i := FirstChar(s, c);
    assert i == |first|;
    assert s[..i] == first && s[i + 1..] == rest;
  }

  // ---------------------------------------------------------------------
  // substring(0, n), toLowerCase(), numbers as text

  /** `s.substring(0, n)`: the first `n` characters, or all of `s`. */
  function Prefix(s: string, n: nat): (r: string)
    ensures |r| == if |s| <= n then |s| else n
    ensures StartsWith(s, r)
    ensures |s| <= n ==> r == s
  {
    if |s| <= n then s else s[..n]
  }

  /** Lower-cases ASCII letters and leaves every other character alone. */
  function LowerAscii(c: char): (d: char)
    ensures 'A' <= c <= 'Z' ==> d as int == c as int + 32
    ensures !('A' <= c <= 'Z') ==> d == c
  {
    if 'A' <= c <= 'Z' then (c as int + 32) as char else c
  }

  function DigitChar(d: nat): (c: char)
    requires d < 10
    ensures IsAsciiDigit(c)
  {
    "0123456789"[d]
  }

  /** The decimal text of a number, as a template literal prints it. */
  function NatToString(n: nat): (r: string)
    ensures r != []
    ensures forall i | 0 <= i < |r| :: IsAsciiDigit(r[i])
  {
    if n < 10 then [DigitChar(n)] else NatToString(n / 10) + [DigitChar(n % 10)]
  }

  function DigitsValue(s: string): nat
    requires forall i | 0 <= i < |s| :: IsAsciiDigit(s[i])
  {
    if s == [] then 0
    else
      var d := s[|s| - 1];
      assert IsAsciiDigit(d);
      10 * DigitsValue(s[..|s| - 1]) + (d as int - '0' as int)
  }

  /** Reading the printed number back gives the number. */
  lemma {:induction false} NatToStringRoundTrip(n: nat)
    ensures DigitsValue(NatToString(n)) == n
  {
    if n >= 10 {
      var r := NatToString(n);
      assert r[..|r| - 1] == NatToString(n / 10);
      NatToStringRoundTrip(n / 10);
    }
  }
}
