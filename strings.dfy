/** The handful of Python `str` operations the crawler relies on:
    prefix/suffix/substring tests, `upper()` and `strip()`, `str(int)` and
    the digit filter `re.sub(r"\D", "", s)` followed by a numeric parse. */
module Strings {
  import opened Wrappers

  predicate StartsWith(s: string, p: string) { p <= s }

  predicate EndsWith(s: string, suffix: string)
  {
    |suffix| <= |s| && s[|s| - |suffix|..] == suffix
  }

  /** `sub` occurs in `s` starting at index `i`. */
  predicate OccursAt(s: string, sub: string, i: nat)
  {
    i + |sub| <= |s| && s[i..i + |sub|] == sub
  }

  /** Python's `sub in s`. */
  function Contains(s: string, sub: string): bool
    decreases |s|
  {
    if |s| < |sub| then false
    else if s[..|sub|] == sub then true
    else if |s| == |sub| then false
    else Contains(s[1..], sub)
  }

  /** `Contains` is exactly "occurs at some position". */
  lemma {:induction false} ContainsIff(s: string, sub: string)
    ensures Contains(s, sub) <==> exists i: nat :: OccursAt(s, sub, i)
    decreases |s|
  {
    if |s| < |sub| {
    } else if s[..|sub|] == sub {
      assert OccursAt(s, sub, 0);
    } else if |s| == |sub| {
      forall i: nat | OccursAt(s, sub, i) ensures i == 0 {
      }
    } else {
      ContainsIff(s[1..], sub);
      if Contains(s[1..], sub) {
        var i: nat :| OccursAt(s[1..], sub, i);
        assert s[i + 1..i + 1 + |sub|] == s[1..][i..i + |sub|];
        assert OccursAt(s, sub, i + 1);
      } else {
        forall i: nat | OccursAt(s, sub, i) ensures i > 0 && OccursAt(s[1..], sub, i - 1) {
          assert s[i..i + |sub|] == s[1..][i - 1..i - 1 + |sub|];
        }
      }
    }
  }

  // ----- upper() on the ASCII letters -----

  function UpperChar(c: char): char
  {
    if 'a' <= c <= 'z' then (c as int - 32) as char else c
  }

  function Upper(s: string): (r: string)
    ensures |r| == |s|
    ensures forall i :: 0 <= i < |s| ==> r[i] == UpperChar(s[i])
  {
    seq(|s|, i requires 0 <= i < |s| => UpperChar(s[i]))
  }

  /** A string all of whose characters are already upper case. */
  predicate IsUpper(s: string)
  {
    forall i :: 0 <= i < |s| ==> UpperChar(s[i]) == s[i]
  }

  lemma UpperIsUpper(s: string)
    ensures IsUpper(Upper(s))
  {
  }

  lemma UpperOfUpper(s: string)
    requires IsUpper(s)
    ensures Upper(s) == s
  {
  }

  // ----- strip() -----

  /** Python's `str.isspace()` for a single character. */
  predicate IsSpace(c: char)
  {
    var n := c as int;
    (9 <= n <= 13) || n == 32 || (28 <= n <= 31) || n == 0x85 || n == 0xA0
    || n == 0x1680 || (0x2000 <= n <= 0x200A) || n == 0x2028 || n == 0x2029
    || n == 0x202F || n == 0x205F || n == 0x3000
  }

  function StripLeft(s: string): (r: string)
    ensures |r| <= |s| && r == s[|s| - |r|..]
    ensures r == [] || !IsSpace(r[0])
    decreases |s|
  {
    if |s| > 0 && IsSpace(s[0]) then StripLeft(s[1..]) else s
  }

  function StripRight(s: string): (r: string)
    ensures |r| <= |s| && r == s[..|r|]
    ensures r == [] || !IsSpace(r[|r| - 1])
    decreases |s|
  {
    if |s| > 0 && IsSpace(s[|s| - 1]) then StripRight(s[..|s| - 1]) else s
  }

  /** Python's `s.strip()`. */
  function Strip(s: string): (r: string)
    ensures r == [] || (!IsSpace(r[0]) && !IsSpace(r[|r| - 1]))
  {
    StripRight(StripLeft(s))
  }

  /** A slice of an upper-case string is upper case. */
  lemma SliceKeepsUpper(s: string, i: nat, j: nat)
    requires IsUpper(s) && i <= j <= |s|
    ensures IsUpper(s[i..j])
  {
    forall k | 0 <= k < j - i ensures UpperChar(s[i..j][k]) == s[i..j][k] {
      assert s[i..j][k] == s[i + k];
    }
  }

  lemma StripKeepsUpper(s: string)
    requires IsUpper(s)
    ensures IsUpper(Strip(s))
  {
    var l := StripLeft(s);
    SliceKeepsUpper(s, |s| - |l|, |s|);
    SliceKeepsUpper(l, 0, |StripRight(l)|);
  }

  lemma StripOfStripped(s: string)
    requires s == [] || (!IsSpace(s[0]) && !IsSpace(s[|s| - 1]))
    ensures Strip(s) == s
  {
  }

  /** `s.upper().strip()`, the normalisation of the item lookup tables. */
  function Normalize(s: string): string
  {
    Strip(Upper(s))
  }

  /** Normalising twice is normalising once. */
  lemma NormalizeIdempotent(s: string)
    ensures Normalize(Normalize(s)) == Normalize(s)
  {
    var t := Strip(Upper(s));
    UpperIsUpper(s);
    StripKeepsUpper(Upper(s));
    UpperOfUpper(t);
    StripOfStripped(t);
  }

  // ----- decimal digits -----

  predicate IsDigit(c: char) { '0' <= c <= '9' }

  predicate AllDigits(s: string)
  {
    forall i :: 0 <= i < |s| ==> IsDigit(s[i])
  }

  function DigitChar(d: nat): (c: char)
    requires d < 10
    ensures IsDigit(c) && c as int - '0' as int == d
  {
    ('0' as int + d) as char
  }

  /** `str(n)` for a natural number, without leading zeros. */
  function NatToString(n: nat): (s: string)
    ensures |s| > 0 && AllDigits(s)
    ensures |s| > 1 ==> s[0] != '0'
    decreases n
  {
    if n < 10 then [DigitChar(n)] else NatToString(n / 10) + [DigitChar(n % 10)]
  }

  /** Python's `str(i)`. */
  function IntToString(i: int): string
  {
    if i < 0 then "-" + NatToString(-i) else NatToString(i)
  }

  /** The value of a string of decimal digits (the empty string has value 0;
      callers that parse a number reject it first). */
  function DigitsValue(s: string): nat
    requires AllDigits(s)
    decreases |s|
  {
    if s == [] then 0
    else DigitsValue(s[..|s| - 1]) * 10 + (s[|s| - 1] as int - '0' as int)
  }

  /** Reading back the decimal rendering of `n` gives `n`. */
  lemma {:induction false} DigitsValueOfNatToString(n: nat)
    ensures DigitsValue(NatToString(n)) == n
    decreases n
  {
    var s := NatToString(n);
    if n >= 10 {
      DigitsValueOfNatToString(n / 10);
      assert s[..|s| - 1] == NatToString(n / 10);
    }
  }

  /** `str(i)` holds only digits and minus signs. */
  lemma IntToStringChars(i: int)
    ensures forall k :: 0 <= k < |IntToString(i)| ==>
      IntToString(i)[k] == '-' || IsDigit(IntToString(i)[k])
  {
  }

  /** Distinct integers have distinct decimal renderings. */
  lemma IntToStringInjective(a: int, b: int)
    requires IntToString(a) == IntToString(b)
    ensures a == b
  {
    var sa, sb := IntToString(a), IntToString(b);
    assert sa[0] == '-' <==> a < 0;
    assert sb[0] == '-' <==> b < 0;
    if a < 0 {
      assert sa[1..] == NatToString(-a) && sb[1..] == NatToString(-b);
      DigitsValueOfNatToString(-a);
      DigitsValueOfNatToString(-b);
    } else {
      DigitsValueOfNatToString(a);
      DigitsValueOfNatToString(b);
    }
  }

  /** Two ways of cutting one string before a separator agree, when neither
      left part holds the separator and both right parts start with it. */
  lemma SplitAtSeparator(x1: string, y1: string, x2: string, y2: string, c: char)
    requires x1 + y1 == x2 + y2
    requires c !in x1 && c !in x2
    requires |y1| > 0 && y1[0] == c && |y2| > 0 && y2[0] == c
    ensures x1 == x2 && y1 == y2
  {
    // the separator sits at index |x1| of one cut and at |x2| of the other
    assert (x2 + y2)[|x1|] == c;
    assert (x1 + y1)[|x2|] == c;
    assert |x1| == |x2|;
    assert x1 == (x1 + y1)[..|x1|] == (x2 + y2)[..|x2|] == x2;
  }

  /** Equal strings with a common prefix agree after it. */
  lemma DropCommonPrefix(p: string, x: string, y: string)
    requires p + x == p + y
    ensures x == y
  {
    assert x == (p + x)[|p|..] == (p + y)[|p|..] == y;
  }

  /** `re.sub(r"\D", "", s)` on the ASCII digits: the digits of `s`, in order. */
  function DigitsOf(s: string): (r: string)
    ensures AllDigits(r) && |r| <= |s|
    decreases |s|
  {
    if s == [] then []
    else if IsDigit(s[0]) then [s[0]] + DigitsOf(s[1..])
    else DigitsOf(s[1..])
  }

  lemma {:induction false} DigitsOfAllDigits(s: string)
    requires AllDigits(s)
    ensures DigitsOf(s) == s
    decreases |s|
  {
    if s != [] {
      DigitsOfAllDigits(s[1..]);
    }
  }

  // ----- searching -----

  /** Index of the last occurrence of `c` in `s`, as Python's `rfind`. */
  function LastIndexOf(s: string, c: char): (r: Option<nat>)
    ensures r.Some? ==> r.value < |s| && s[r.value] == c
                        && forall j :: r.value < j < |s| ==> s[j] != c
    ensures r.None? ==> forall j :: 0 <= j < |s| ==> s[j] != c
    decreases |s|
  {
    if s == [] then None
    else if s[|s| - 1] == c then Some(|s| - 1)
    else LastIndexOf(s[..|s| - 1], c)
  }

  /** With nothing of `c` from position `k` on, the last `c` is before `k`. */
  lemma LastAt(s: string, c: char, k: nat)
    requires k <= |s| && forall j :: k <= j < |s| ==> s[j] != c
    requires k > 0 ==> s[k - 1] == c
    ensures match LastIndexOf(s, c)
      case None => k == 0
      case Some(i) => i + 1 == k
  {
  }

  // ----- split and join -----

  /** `s.split(c)`: the pieces between the separators, in order. */
  function Split(s: string, c: char): (parts: seq<string>)
    ensures |parts| >= 1
    ensures forall i :: 0 <= i < |parts| ==> c !in parts[i]
    decreases |s|
  {
    match LastIndexOf(s, c)
    case None => [s]
    case Some(i) =>
      Split(s[..i], c) + [s[i + 1..]]
  }

  /** `c.join(parts)` for a non-empty list. */
  function Join(parts: seq<string>, c: char): string
    requires |parts| >= 1
    decreases |parts|
  {
    if |parts| == 1 then parts[0] else Join(parts[..|parts| - 1], c) + [c] + parts[|parts| - 1]
  }

  /** Joining the pieces with the separator gives the string back. */
  lemma {:induction false} JoinSplit(s: string, c: char)
    ensures Join(Split(s, c), c) == s
    decreases |s|
  {
    match LastIndexOf(s, c)
    case None =>
    case Some(i) =>
      var left := Split(s[..i], c);
      var parts := left + [s[i + 1..]];
      assert parts[..|parts| - 1] == left;
      JoinSplit(s[..i], c);
      assert s == s[..i] + [c] + s[i + 1..];
  }

  /** Splitting a string whose last separator is the one after `pre`. */
  lemma SplitLast(pre: string, c: char, last: string)
    requires c !in last
    ensures Split(pre + [c] + last, c) == Split(pre, c) + [last]
  {
    var s := pre + [c] + last;
    forall j | |pre| + 1 <= j < |s| ensures s[j] != c {
      assert s[j] == last[j - |pre| - 1];
    }
    LastAt(s, c, |pre| + 1);
    assert s[..|pre|] == pre && s[|pre| + 1..] == last;
  }
}
