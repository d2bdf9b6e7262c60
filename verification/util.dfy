/** Small helpers shared by the server model: the source's `min`/`max`,
    an Option type for C's NULL results, and the decimal text that `%d`
    produces together with its reader. */
module Util {

  datatype Option<T> = None | Some(value: T)

  /** `min` of server.c: the smaller argument. */
  function Min(a: int, b: int): (r: int)
    ensures r <= a && r <= b
    ensures r == a || r == b
  {
    if a < b then a else b
  }

  /** `max` of server.c: the larger argument. */
  function Max(a: int, b: int): (r: int)
    ensures r >= a && r >= b
    ensures r == a || r == b
  {
    if a > b then a else b
  }

  predicate IsDigit(c: char) {
    '0' <= c <= '9'
  }

  function DigitChar(d: nat): (c: char)
    requires d < 10
    ensures IsDigit(c)
  {
    ('0' as int + d) as char
  }

  function DigitValue(c: char): (d: nat)
    requires IsDigit(c)
    ensures d < 10
  {
    (c as int - '0' as int) as nat
  }

  /** The decimal text `sprintf("%d", n)` writes for a non-negative n. */
  function NatToString(n: nat): (s: string)
    decreases n
  {
    if n < 10 then [DigitChar(n)] else NatToString(n / 10) + [DigitChar(n % 10)]
  }

  /** Reads a run of decimal digits, most significant first. */
  function DigitsValue(s: string): nat
    requires forall i :: 0 <= i < |s| ==> IsDigit(s[i])
  {
    if s == [] then 0 else DigitsValue(s[..|s| - 1]) * 10 + DigitValue(s[|s| - 1])
  }

  /** A non-empty all-digit text read as a number; anything else is None. */
  function ParseNat(s: string): Option<nat> {
    if s != [] && forall i :: 0 <= i < |s| ==> IsDigit(s[i]) then Some(DigitsValue(s)) else None
  }

  /** The text of a number is non-empty and made of digits only. */
  lemma {:induction false} NatToStringDigits(n: nat)
    ensures NatToString(n) != []
    ensures forall i :: 0 <= i < |NatToString(n)| ==> IsDigit(NatToString(n)[i])
    decreases n
  {
    if n >= 10 {
      NatToStringDigits(n / 10);
    }
  }

  /** Reading back the text of a number gives the number. */
  lemma {:induction false} NatToStringRoundTrip(n: nat)
    ensures ParseNat(NatToString(n)) == Some(n)
    decreases n
  {
    NatToStringDigits(n);
    if n < 10 {
      var s := NatToString(n);
      assert s[..|s| - 1] == [];
      assert DigitsValue(s) == DigitsValue([]) * 10 + DigitValue(s[0]);
    } else {
      NatToStringRoundTrip(n / 10);
      NatToStringDigits(n / 10);
      var s := NatToString(n);
      assert s[..|s| - 1] == NatToString(n / 10);
      assert DigitValue(DigitChar(n % 10)) == n % 10;
    }
  }

  /** Index of the first `c` in `s`, or |s| when there is none. */
  function FindChar(s: string, c: char): (i: nat)
    ensures i <= |s|
    ensures i < |s| ==> s[i] == c
    ensures forall j :: 0 <= j < i ==> s[j] != c
  {
    if s == [] then 0 else if s[0] == c then 0 else 1 + FindChar(s[1..], c)
  }

  /** The text before the first `c` and the text after it; None when `s` has no `c`. */
  function SplitFirst(s: string, c: char): Option<(string, string)> {
    var i := FindChar(s, c);
    if i == |s| then None else Some((s[..i], s[i + 1..]))
  }

  lemma SplitFirstJoin(a: string, c: char, b: string)
    requires c !in a
    ensures SplitFirst(a + [c] + b, c) == Some((a, b))
  {
    var s := a + [c] + b;
    assert s[|a|] == c;
    assert s[..|a|] == a && s[|a| + 1..] == b;
  }
}
