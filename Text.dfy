/**
 * String helpers with the meaning of the Python string operations the
 * source relies on: `lower()`, `upper()`, `in` on strings, `split(c)[0]`,
 * `strip()`, `join` and `str(n)` for naturals.
 */
module Text {

  /** ASCII case mapping; Python maps other letters too, which is not modelled. */
  function LowerChar(c: char): char {
    if 'A' <= c <= 'Z' then (c as int + 32) as char else c
  }

  function UpperChar(c: char): char {
    if 'a' <= c <= 'z' then (c as int - 32) as char else c
  }

  /** `s.lower()` */
  function Lower(s: string): (r: string)
    ensures |r| == |s|
    ensures forall i :: 0 <= i < |s| ==> r[i] == LowerChar(s[i])
    ensures forall i :: 0 <= i < |s| ==> !('A' <= r[i] <= 'Z')
  {
    seq(|s|, i requires 0 <= i < |s| => LowerChar(s[i]))
  }

  /** `s.upper()` */
  function Upper(s: string): (r: string)
    ensures |r| == |s|
    ensures forall i :: 0 <= i < |s| ==> r[i] == UpperChar(s[i])
    ensures forall i :: 0 <= i < |s| ==> !('a' <= r[i] <= 'z')
  {
    seq(|s|, i requires 0 <= i < |s| => UpperChar(s[i]))
  }

  predicate StartsWith(s: string, prefix: string) {
    |prefix| <= |s| && s[..|prefix|] == prefix
  }

  /** Python's `sub in s`: the empty string is in every string. */
  predicate Contains(s: string, sub: string)
    decreases |s|
  {
    StartsWith(s, sub) || (|s| > 0 && Contains(s[1..], sub))
  }

  /** `sub` occurs in `s` starting at position `i`. */
  predicate OccursAt(s: string, sub: string, i: int) {
    0 <= i && i + |sub| <= |s| && s[i..i + |sub|] == sub
  }

  /** `sub in s` holds exactly when `sub` occurs at some position of `s`. */
  lemma {:induction false} ContainsIff(s: string, sub: string)
    ensures Contains(s, sub) <==> exists i :: OccursAt(s, sub, i)
    decreases |s|
  {
    if StartsWith(s, sub) {
      assert OccursAt(s, sub, 0);
    } else if |s| > 0 {
      ContainsIff(s[1..], sub);
      if Contains(s[1..], sub) {
        var i :| OccursAt(s[1..], sub, i);
        SliceShift(s, i + 1, |sub|);
        assert OccursAt(s, sub, i + 1);
      } else {
        forall i ensures !OccursAt(s, sub, i) {
          if 0 < i && i + |sub| <= |s| {
            SliceShift(s, i, |sub|);
            assert !OccursAt(s[1..], sub, i - 1);
          }
        }
      }
    }
  }

  /** A slice of `s` from `i > 0` is the same slice of `s[1..]` from `i - 1`. */
  lemma SliceShift(s: string, i: int, n: nat)
    requires 0 < i && i + n <= |s|
    ensures s[i..i + n] == s[1..][i - 1..i - 1 + n]
  {
    assert s[i..i + n] == s[1..][i - 1..i - 1 + n];
  }

  /** An occurrence at a known position makes `sub in s` true. */
  lemma ContainsAt(s: string, sub: string, i: nat)
    requires OccursAt(s, sub, i)
    ensures Contains(s, sub)
  {
    ContainsIff(s, sub);
  }

  lemma OccursAtHead(s: string, sub: string, i: int)
    ensures OccursAt(s, sub, i) && |sub| > 0 ==> sub[0] in s
  {
    if OccursAt(s, sub, i) && |sub| > 0 {
      assert s[i..i + |sub|][0] == s[i];
    }
  }

  /** A string longer than `s`, or one whose first character `s` lacks, is not in `s`. */
  lemma NotContains(s: string, sub: string)
    requires |sub| > |s| || (|sub| > 0 && sub[0] !in s)
    ensures !Contains(s, sub)
  {
    ContainsIff(s, sub);
    forall i ensures !OccursAt(s, sub, i) {
      OccursAtHead(s, sub, i);
    }
  }

  /** The characters Python's `str.isspace()` accepts. */
  predicate IsSpace(c: char) {
    c in {' ', '\t', '\n', '\r', '\U{B}', '\U{C}', '\U{1C}', '\U{1D}', '\U{1E}', '\U{1F}',
          '\U{85}', '\U{A0}', '\U{1680}', '\U{2000}', '\U{2001}', '\U{2002}', '\U{2003}',
          '\U{2004}', '\U{2005}', '\U{2006}', '\U{2007}', '\U{2008}', '\U{2009}', '\U{200A}',
          '\U{2028}', '\U{2029}', '\U{202F}', '\U{205F}', '\U{3000}'}
  }

  function TrimLeft(s: string): (r: string)
    ensures |r| <= |s| && r == s[|s| - |r|..]
    ensures |r| > 0 ==> !IsSpace(r[0])
    ensures forall i :: 0 <= i < |s| - |r| ==> IsSpace(s[i])
  {
    TrimFrom(s, 0)
  }

  /** `s[k..].lstrip()`, for leading whitespace already skipped up to `k`. */
  function TrimFrom(s: string, k: nat): (r: string)
    requires k <= |s|
    ensures |r| <= |s| - k && r == s[|s| - |r|..]
    ensures |r| > 0 ==> !IsSpace(r[0])
    ensures forall i :: k <= i < |s| - |r| ==> IsSpace(s[i])
    decreases |s| - k
  {
    if k < |s| && IsSpace(s[k]) then TrimFrom(s, k + 1) else s[k..]
  }

  function TrimRight(s: string): (r: string)
    ensures |r| <= |s| && r == s[..|r|]
    ensures |r| > 0 ==> !IsSpace(r[|r| - 1])
    ensures forall i :: |r| <= i < |s| ==> IsSpace(s[i])
    decreases |s|
  {
    if |s| > 0 && IsSpace(s[|s| - 1]) then TrimRight(s[..|s| - 1]) else s
  }

  /** `s.strip()`: drops leading and trailing whitespace and nothing else. */
  function Strip(s: string): (r: string)
    ensures |r| > 0 ==> !IsSpace(r[0]) && !IsSpace(r[|r| - 1])
    ensures OccursAt(s, r, |s| - |TrimLeft(s)|)
    ensures forall i :: 0 <= i < |s| - |TrimLeft(s)| ==> IsSpace(s[i])
    ensures forall i :: |s| - |TrimLeft(s)| + |r| <= i < |s| ==> IsSpace(s[i])
  {
    var l := TrimLeft(s);
    var r := TrimRight(l);
    assert r == s[|s| - |l|..|s| - |l| + |r|];
    SpaceAfter(s, l, |r|);
    r
  }

  /** Whitespace after position `n` of a suffix `l` of `s` is whitespace of `s`. */
  lemma SpaceAfter(s: string, l: string, n: nat)
    requires |l| <= |s| && l == s[|s| - |l|..] && n <= |l|
    requires forall i :: n <= i < |l| ==> IsSpace(l[i])
    ensures forall i :: |s| - |l| + n <= i < |s| ==> IsSpace(s[i])
  {
    forall i | |s| - |l| + n <= i < |s|
      ensures IsSpace(s[i])
    {
      assert s[i] == l[i - (|s| - |l|)];
    }
  }

  /**
   * `r` is what is left of `s` once whitespace, and only whitespace, is cut
   * from both ends: it occurs in `s` at `k`, everything around it is
   * whitespace, and it neither starts nor ends with whitespace.
   */
  predicate StrippedAt(s: string, r: string, k: int) {
    OccursAt(s, r, k) &&
    (forall i :: 0 <= i < k ==> IsSpace(s[i])) &&
    (forall i :: k + |r| <= i < |s| ==> IsSpace(s[i])) &&
    (|r| > 0 ==> !IsSpace(r[0]) && !IsSpace(r[|r| - 1]))
  }

  /** `Strip(s)` is such a cut, and so occurs in `s`. */
  lemma StripStripped(s: string)
    ensures StrippedAt(s, Strip(s), |s| - |TrimLeft(s)|)
    ensures Contains(s, Strip(s))
  {
    ContainsAt(s, Strip(s), |s| - |TrimLeft(s)|);
  }

  /** `Strip` is the only such cut: any `r` stripped from `s` at any position is `Strip(s)`. */
  lemma StripUnique(s: string, r: string, k: int)
    requires StrippedAt(s, r, k)
    ensures r == Strip(s)
  {
    var t := Strip(s);
    var k0 := |s| - |TrimLeft(s)|;
    assert StrippedAt(s, t, k0);
    if |r| > 0 {
      assert s[k] == r[0] && s[k + |r| - 1] == r[|r| - 1];
      assert |t| > 0;
      assert s[k0] == t[0] && s[k0 + |t| - 1] == t[|t| - 1];
      FirstNonSpace(s, k, k0);
      LastNonSpace(s, k + |r| - 1, k0 + |t| - 1);
    }
  }

  /** Two positions of `s` that are each the first one holding no whitespace coincide. */
  lemma FirstNonSpace(s: string, a: int, b: int)
    requires 0 <= a < |s| && 0 <= b < |s| && !IsSpace(s[a]) && !IsSpace(s[b])
    requires forall i :: 0 <= i < a ==> IsSpace(s[i])
    requires forall i :: 0 <= i < b ==> IsSpace(s[i])
    ensures a == b
  {
  }

  /** Two positions of `s` that are each the last one holding no whitespace coincide. */
  lemma LastNonSpace(s: string, a: int, b: int)
    requires 0 <= a < |s| && 0 <= b < |s| && !IsSpace(s[a]) && !IsSpace(s[b])
    requires forall i :: a < i < |s| ==> IsSpace(s[i])
    requires forall i :: b < i < |s| ==> IsSpace(s[i])
    ensures a == b
  {
  }

  /** `s.split(c)[0]`: the text before the first `c`, or all of `s`. */
  function BeforeFirst(s: string, c: char): (r: string)
    ensures |r| <= |s| && r == s[..|r|]
    ensures c !in r
    ensures |r| < |s| ==> s[|r|] == c
    decreases |s|
  {
    if |s| == 0 then ""
    else if s[0] == c then ""
    else [s[0]] + BeforeFirst(s[1..], c)
  }

  /** `sep.join(parts)` */
  function Join(parts: seq<string>, sep: string): (r: string)
    ensures |parts| == 0 ==> r == ""
    ensures |parts| == 1 ==> r == parts[0]
    decreases |parts|
  {
    if |parts| == 0 then ""
    else if |parts| == 1 then parts[0]
    else parts[0] + sep + Join(parts[1..], sep)
  }

  /** Joining one more part appends the separator and that part. */
  lemma {:induction false} JoinSnoc(parts: seq<string>, x: string, sep: string)
    requires |parts| > 0
    ensures Join(parts + [x], sep) == Join(parts, sep) + sep + x
    decreases |parts|
  {
    if |parts| > 1 {
      JoinSnoc(parts[1..], x, sep);
      assert (parts + [x])[1..] == parts[1..] + [x];
    } else {
      assert (parts + [x])[1..] == [x];
    }
  }

  function DigitChar(d: nat): char
    requires d < 10
  {
    "0123456789"[d]
  }

  /** `str(n)` for a natural number, in decimal without leading zeros. */
  function NatToString(n: nat): (r: string)
    ensures |r| > 0
    ensures forall i :: 0 <= i < |r| ==> '0' <= r[i] <= '9'
  {
    if n < 10 then [DigitChar(n)] else NatToString(n / 10) + [DigitChar(n % 10)]
  }
}
