/**
 * The Python built-ins on strings and lists that the helpers and the data
 * generator are written with: `str.isspace`, `str.strip`, prefix slicing
 * `s[:n]`, the two meanings of `in`, and single-character `str.replace`.
 */
module PyStr {

  function Min(a: int, b: int): int { if a <= b then a else b }

  function Max(a: int, b: int): int { if a >= b then a else b }

  /** `c.isspace()`: the code points Python treats as whitespace, hence the ones `strip()` removes. */
  predicate IsSpace(c: char) {
    || ('\t' <= c <= '\r')
    || ('\U{1C}' <= c <= '\U{1F}')
    || c == ' '
    || c == '\U{85}'
    || c == '\U{A0}'
    || c == '\U{1680}'
    || ('\U{2000}' <= c <= '\U{200A}')
    || c == '\U{2028}'
    || c == '\U{2029}'
    || c == '\U{202F}'
    || c == '\U{205F}'
    || c == '\U{3000}'
  }

  /** `x in xs` on a Python list: a left-to-right scan comparing with `==`. */
  function ListContains<T(==)>(xs: seq<T>, x: T): (r: bool)
    ensures r <==> x in xs
  {
    if xs == [] then false else xs[0] == x || ListContains(xs[1..], x)
  }

  /** `needle` occurs in `hay` starting at position `k`. */
  ghost predicate OccursAt(needle: string, hay: string, k: int) {
    0 <= k <= |hay| - |needle| && hay[k..k + |needle|] == needle
  }

  /** `needle in hay` on Python strings: a contiguous-substring test. */
  function StrContains(hay: string, needle: string): (r: bool)
    ensures r <==> exists k :: OccursAt(needle, hay, k)
    decreases |hay|
  {
    if |hay| < |needle| then
      assert forall k :: !OccursAt(needle, hay, k);
      false
    else if hay[..|needle|] == needle then
      assert OccursAt(needle, hay, 0);
      true
    else
      var r := StrContains(hay[1..], needle);
      ShiftOccurrence(hay, needle);
      r
  }

  /** An occurrence away from the front of `hay` is an occurrence in `hay[1..]`, and back. */
  lemma ShiftOccurrence(hay: string, needle: string)
    requires |hay| > 0 && (|hay| < |needle| || hay[..|needle|] != needle)
    ensures (exists k :: OccursAt(needle, hay, k)) <==> (exists k :: OccursAt(needle, hay[1..], k))
  {
    if k :| OccursAt(needle, hay, k) {
      assert k != 0;
      assert hay[1..][k - 1..k - 1 + |needle|] == hay[k..k + |needle|];
      assert OccursAt(needle, hay[1..], k - 1);
    }
    if k :| OccursAt(needle, hay[1..], k) {
      assert hay[1..][k..k + |needle|] == hay[k + 1..k + 1 + |needle|];
      assert OccursAt(needle, hay, k + 1);
    }
  }

  /** The number of whitespace code points at the front of `s`. */
  function LeadingSpaces(s: string): (n: nat)
    ensures n <= |s|
    ensures forall i :: 0 <= i < n ==> IsSpace(s[i])
    ensures n < |s| ==> !IsSpace(s[n])
  {
    if s != [] && IsSpace(s[0]) then 1 + LeadingSpaces(s[1..]) else 0
  }

  /** The number of whitespace code points at the back of `s`. */
  function TrailingSpaces(s: string): (n: nat)
    ensures n <= |s|
    ensures forall i :: |s| - n <= i < |s| ==> IsSpace(s[i])
    ensures n < |s| ==> !IsSpace(s[|s| - n - 1])
  {
    if s != [] && IsSpace(s[|s| - 1]) then 1 + TrailingSpaces(s[..|s| - 1]) else 0
  }

  /**
   * `s[a..b]` is what stripping `s` leaves: everything outside it is
   * whitespace, and a non-empty `s[a..b]` starts and ends with non-whitespace.
   */
  ghost predicate StripsTo(s: string, a: int, b: int) {
    && 0 <= a <= b <= |s|
    && (forall i :: 0 <= i < a ==> IsSpace(s[i]))
    && (forall i :: b <= i < |s| ==> IsSpace(s[i]))
    && (a < b ==> !IsSpace(s[a]) && !IsSpace(s[b - 1]))
  }

  /** `s.strip()` with no argument. */
  function Strip(s: string): (r: string)
    ensures exists a, b :: StripsTo(s, a, b) && r == s[a..b]
  {
    var a := LeadingSpaces(s);
    var n := TrailingSpaces(s[a..]);
    var b := |s| - n;
    StripBounds(s, a, n, b);
    s[a..b]
  }

  /** The bounds `Strip` computes satisfy `StripsTo`. */
  lemma StripBounds(s: string, a: nat, n: nat, b: int)
    requires a == LeadingSpaces(s) && n == TrailingSpaces(s[a..]) && b == |s| - n
    ensures StripsTo(s, a, b)
  {
    var t := s[a..];
    assert |t| == |s| - a && a <= b;
    forall i | b <= i < |s|
      ensures IsSpace(s[i])
    {
      assert |t| - n <= i - a < |t|;
      assert s[i] == t[i - a];
    }
    if a < b {
      assert !IsSpace(s[a]);
      assert s[b - 1] == t[|t| - n - 1];
    }
  }

  /** The characterisation in `StripsTo` pins the stripped string down uniquely. */
  lemma StripUnique(s: string, a: int, b: int, a': int, b': int)
    requires StripsTo(s, a, b) && StripsTo(s, a', b')
    ensures s[a..b] == s[a'..b']
  {
    if a < b && a' < b' {
      if a < a' || a' < a || b < b' || b' < b { assert false; }
    } else if a < b || a' < b' {
      assert false;
    }
  }

  /** A string with no whitespace at either end strips to itself. */
  lemma StripOfTrimmed(s: string)
    requires s == [] || (!IsSpace(s[0]) && !IsSpace(s[|s| - 1]))
    ensures Strip(s) == s
  {
    if s != [] {
      assert LeadingSpaces(s) == 0;
      assert s[0..] == s;
      assert TrailingSpaces(s) == 0;
    }
    assert s[0..|s|] == s;
  }

  /** `s[:n]`: Python prefix slicing, where a negative `n` counts from the end. */
  function SliceTo<T>(s: seq<T>, n: int): (r: seq<T>)
    ensures |r| == if n >= 0 then Min(n, |s|) else Max(0, |s| + n)
    ensures r == s[..|r|]
  {
    if n >= |s| then s
    else if n >= 0 then s[..n]
    else if |s| + n >= 0 then s[..|s| + n]
    else []
  }

  /** The number of occurrences of `c` in `s`. */
  function CountChar(s: string, c: char): (n: nat)
    ensures n <= |s|
  {
    if s == [] then 0 else (if s[0] == c then 1 else 0) + CountChar(s[1..], c)
  }

  /** Counting occurrences distributes over concatenation. */
  lemma {:induction false} CountCharAppend(s: string, t: string, c: char)
    ensures CountChar(s + t, c) == CountChar(s, c) + CountChar(t, c)
  {
    if s == [] {
      assert s + t == t;
    } else {
      assert (s + t)[0] == s[0] && (s + t)[1..] == s[1..] + t;
      CountCharAppend(s[1..], t, c);
    }
  }

  /** `s.replace(c, sub)` for a one-character pattern `c`. */
  function ReplaceChar(s: string, c: char, sub: string): (r: string)
    ensures c !in sub ==> c !in r
  {
    if s == [] then []
    else if s[0] == c then sub + ReplaceChar(s[1..], c, sub)
    else [s[0]] + ReplaceChar(s[1..], c, sub)
  }

  /** Every occurrence of `c` is traded for `sub`: the length changes by `|sub| - 1` per occurrence. */
  lemma {:induction false} ReplaceCharLength(s: string, c: char, sub: string)
    ensures |ReplaceChar(s, c, sub)| == |s| + (|sub| - 1) * CountChar(s, c)
  {
    if s != [] {
      ReplaceCharLength(s[1..], c, sub);
      if s[0] == c {
        MulSucc(|sub| - 1, CountChar(s[1..], c));
      }
    }
  }

  /** Replacing by a non-empty string never shortens. */
  lemma {:induction false} ReplaceCharGrows(s: string, c: char, sub: string)
    requires sub != []
    ensures |ReplaceChar(s, c, sub)| >= |s|
  {
    if s != [] {
      ReplaceCharGrows(s[1..], c, sub);
    }
  }

  /** `a * (n + 1) == a * n + a`. */
  lemma MulSucc(a: int, n: int)
    ensures a * (n + 1) == a * n + a
  {
  }

  /** A string without `c` is left unchanged by replacing `c`. */
  lemma {:induction false} ReplaceCharAbsent(s: string, c: char, sub: string)
    requires c !in s
    ensures ReplaceChar(s, c, sub) == s
  {
    if s != [] {
      assert c !in s[1..] by { assert forall x :: x in s[1..] ==> x in s; }
      ReplaceCharAbsent(s[1..], c, sub);
      assert s == [s[0]] + s[1..];
    }
  }

  /** Replacing a character commutes with concatenation. */
  lemma {:induction false} ReplaceCharAppend(s: string, t: string, c: char, sub: string)
    ensures ReplaceChar(s + t, c, sub) == ReplaceChar(s, c, sub) + ReplaceChar(t, c, sub)
  {
    if s == [] {
      assert s + t == t;
    } else {
      assert (s + t)[0] == s[0] && (s + t)[1..] == s[1..] + t;
      ReplaceCharAppend(s[1..], t, c, sub);
      var head := if s[0] == c then sub else [s[0]];
      assert ReplaceChar(s + t, c, sub) == head + (ReplaceChar(s[1..], c, sub) + ReplaceChar(t, c, sub));
      assert ReplaceChar(s, c, sub) == head + ReplaceChar(s[1..], c, sub);
    }
  }

  /** The first index of `c` in `s`. */
  function IndexOf(s: string, c: char): (k: nat)
    requires c in s
    ensures k < |s| && s[k] == c
  {
    if s[0] == c then 0 else 1 + IndexOf(s[1..], c)
  }
}
