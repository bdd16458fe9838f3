/** String helpers standing for the QString operations the player uses:
    ASCII case mapping, substring search, decimal rendering and parsing. */
module Text {

  function LowerChar(c: char): char {
    if 'A' <= c <= 'Z' then (c as int + 32) as char else c
  }

  function UpperChar(c: char): char {
    if 'a' <= c <= 'z' then (c as int - 32) as char else c
  }

  /** `QString::toLower` restricted to ASCII letters. */
  function Lower(s: string): (r: string)
    ensures |r| == |s|
    ensures forall i :: 0 <= i < |s| ==> r[i] == LowerChar(s[i])
  {
    seq(|s|, i requires 0 <= i < |s| => LowerChar(s[i]))
  }

  /** `QString::toUpper` restricted to ASCII letters. */
  function Upper(s: string): (r: string)
    ensures |r| == |s|
    ensures forall i :: 0 <= i < |s| ==> r[i] == UpperChar(s[i])
  {
    seq(|s|, i requires 0 <= i < |s| => UpperChar(s[i]))
  }

  /** Lower-casing is idempotent and ignores a prior upper-casing. */
  lemma LowerOfUpper(s: string)
    ensures Lower(Lower(s)) == Lower(s)
    ensures Lower(Upper(s)) == Lower(s)
  {
    assert forall i :: 0 <= i < |s| ==> Lower(Lower(s))[i] == Lower(s)[i];
    assert forall i :: 0 <= i < |s| ==> Lower(Upper(s))[i] == Lower(s)[i];
  }

  /** A string without upper-case ASCII letters is its own lower-case form. */
  lemma LowerIdentity(s: string)
    requires forall i :: 0 <= i < |s| ==> !('A' <= s[i] <= 'Z')
    ensures Lower(s) == s
  {
  }

  predicate StartsWith(s: string, prefix: string) {
    |prefix| <= |s| && s[..|prefix|] == prefix
  }

  /** `QString::contains`: `sub` occurs somewhere in `s`, tried from the left. */
  predicate Contains(s: string, sub: string)
    decreases |s|
  {
    StartsWith(s, sub) || (|s| > 0 && Contains(s[1..], sub))
  }

  /** `sub` occurs in `s` starting at position `i`. */
  predicate OccursAt(s: string, sub: string, i: int) {
    0 <= i <= |s| - |sub| && s[i..i + |sub|] == sub
  }

  /** The left-to-right search agrees with the positional definition of an occurrence. */
  lemma {:induction false} ContainsAt(s: string, sub: string)
    ensures Contains(s, sub) <==> exists i :: OccursAt(s, sub, i)
    decreases |s|
  {
    if StartsWith(s, sub) {
      assert OccursAt(s, sub, 0);
    } else if |s| == 0 {
    } else {
      ContainsAt(s[1..], sub);
      if exists i :: OccursAt(s, sub, i) {
        var i :| OccursAt(s, sub, i);
        assert i != 0;
        assert OccursAt(s[1..], sub, i - 1);
      }
      if exists j :: OccursAt(s[1..], sub, j) {
        var j :| OccursAt(s[1..], sub, j);
        assert OccursAt(s, sub, j + 1);
      }
    }
  }

  /** A string cannot contain a pattern holding a character the string lacks. */
  lemma MissingCharNotContained(s: string, sub: string, c: char)
    requires c in sub && c !in s
    ensures !Contains(s, sub)
  {
    ContainsAt(s, sub);
    forall i | 0 <= i <= |s| - |sub|
      ensures !OccursAt(s, sub, i)
    {
      var k :| 0 <= k < |sub| && sub[k] == c;
      assert s[i..i + |sub|][k] == s[i + k];
    }
  }

  // ---- decimal numbers --------------------------------------------------

  predicate IsDigit(c: char) {
    '0' <= c <= '9'
  }

  predicate AllDigits(s: string) {
    forall i :: 0 <= i < |s| ==> IsDigit(s[i])
  }

  function DigitChar(d: nat): (c: char)
    requires d < 10
    ensures IsDigit(c)
  {
    ('0' as int + d) as char
  }

  function DigitValue(c: char): (d: nat)
    requires IsDigit(c)
    ensures d < 10
  {
    c as int - '0' as int
  }

  /** `QString::number` of a non-negative integer: no sign, no leading zeros. */
  function NatToDec(n: nat): (r: string)
    ensures |r| > 0 && AllDigits(r)
    ensures (n == 0) == (r == "0")
    decreases n
  {
    if n < 10 then [DigitChar(n)] else NatToDec(n / 10) + [DigitChar(n % 10)]
  }

  /** Value of a string of decimal digits (empty reads as 0). */
  function DecToNat(s: string): nat
    requires AllDigits(s)
  {
    if s == [] then 0 else DecToNat(s[..|s| - 1]) * 10 + DigitValue(s[|s| - 1])
  }

  /** Reading back a rendered number gives the number. */
  lemma {:induction false} DecRoundTrip(n: nat)
    ensures DecToNat(NatToDec(n)) == n
    decreases n
  {
    var r := NatToDec(n);
    if n >= 10 {
      DecRoundTrip(n / 10);
      assert r[..|r| - 1] == NatToDec(n / 10);
    }
  }

  /** Decimal digits without a leading zero (other than "0" itself): the
      form `QString::number` writes. */
  predicate Canonical(d: string) {
    |d| > 0 && AllDigits(d) && (d[0] == '0' ==> |d| == 1)
  }

  /** Rendered numbers are canonical. */
  lemma {:induction false} NatToDecCanonical(n: nat)
    ensures Canonical(NatToDec(n))
    decreases n
  {
    if n >= 10 {
      NatToDecCanonical(n / 10);
      assert NatToDec(n)[0] == NatToDec(n / 10)[0];
    }
  }

  /** Canonical digits other than "0" denote a positive number. */
  lemma {:induction false} CanonicalPositive(d: string)
    requires AllDigits(d) && |d| > 0 && d[0] != '0'
    ensures DecToNat(d) > 0
    decreases |d|
  {
    if |d| > 1 {
      CanonicalPositive(d[..|d| - 1]);
    }
  }

  /** Canonical text is the rendering of its own value. */
  lemma {:induction false} CanonicalRoundTrip(d: string)
    requires Canonical(d)
    ensures NatToDec(DecToNat(d)) == d
    decreases |d|
  {
    var n := DecToNat(d);
    var init := d[..|d| - 1];
    if |d| == 1 {
      assert init == [];
      assert [DigitChar(DigitValue(d[0]))] == d;
    } else {
      CanonicalPositive(init);
      CanonicalRoundTrip(init);
      assert n / 10 == DecToNat(init) && n % 10 == DigitValue(d[|d| - 1]);
      assert d == init + [d[|d| - 1]];
    }
  }

  /** Two digits are the zero-padded rendering of their value. */
  lemma Pad2Inverse(d: string)
    requires |d| == 2 && AllDigits(d)
    ensures DecToNat(d) < 100 && Pad2(DecToNat(d)) == d
  {
    var n := DecToNat(d);
    assert d[..1][..0] == [] && d[..1][0] == d[0];
    assert DecToNat(d[..1]) == DigitValue(d[0]);
    assert n == DigitValue(d[0]) * 10 + DigitValue(d[1]);
    if d[0] == '0' {
      assert d == ['0', DigitChar(n)];
    } else {
      CanonicalRoundTrip(d);
    }
  }

  /** `QString::number` / `QString::arg` of a signed integer. */
  function IntToDec(i: int): (r: string)
    ensures |r| > 0
  {
    if i < 0 then "-" + NatToDec(-i) else NatToDec(i)
  }

  /** An optional minus sign followed by at least one digit. */
  predicate IsInteger(s: string) {
    if |s| > 0 && s[0] == '-' then |s| > 1 && AllDigits(s[1..]) else |s| > 0 && AllDigits(s)
  }

  function ParseInt(s: string): int
    requires IsInteger(s)
  {
    if s[0] == '-' then -(DecToNat(s[1..]) as int) else DecToNat(s)
  }

  /** Rendering a signed integer gives well-formed text that reads back as the same integer. */
  lemma IntRoundTrip(i: int)
    ensures IsInteger(IntToDec(i)) && ParseInt(IntToDec(i)) == i
  {
    if i < 0 {
      var r := IntToDec(i);
      assert r[1..] == NatToDec(-i);
      DecRoundTrip(-i);
    } else {
      DecRoundTrip(i);
    }
  }

  /** `QString::arg(n, 2, 10, QChar('0'))` for 0 <= n < 100: two digits, zero padded. */
  function Pad2(n: nat): (r: string)
    requires n < 100
    ensures |r| == 2 && AllDigits(r)
    ensures DecToNat(r) == n
  {
    if n < 10 then
      var r := ['0', DigitChar(n)];
      assert r[..|r| - 1] == ['0'];
      assert ['0'][..0] == [];
      assert DecToNat(['0']) == 0;
      r
    else
      DecRoundTrip(n);
      NatToDec(n)
  }
}
