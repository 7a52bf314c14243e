// Python's `str` on natural numbers and `int` on strings (ASCII).
module Decimal {
  import opened Wrappers
  import opened NodeSpec

  predicate IsDigit(c: char) {
    '0' <= c <= '9'
  }

  function DigitChar(d: nat): (c: char)
    requires d < 10
    ensures IsDigit(c) && DigitValue(c) == d
  {
    '0' + d as char
  }

  function DigitValue(c: char): nat
    requires IsDigit(c)
  {
    (c - '0') as nat
  }

  function Str(n: nat): (s: string)
    ensures s != [] && forall c | c in s :: IsDigit(c)
  {
    if n < 10 then [DigitChar(n)] else Str(n / 10) + [DigitChar(n % 10)]
  }

  function StrInt(z: int): string {
    if z < 0 then "-" + Str(-z) else Str(z)
  }

  predicate IsSpace(c: char) {
    c == ' ' || '\t' <= c <= '\r'
  }

  function TrimLeft(s: string): string {
    if s != [] && IsSpace(s[0]) then TrimLeft(s[1..]) else s
  }

  function TrimRight(s: string): string {
    if s != [] && IsSpace(s[|s| - 1]) then TrimRight(s[..|s| - 1]) else s
  }

  // Digits, with single underscores allowed between them.
  function Magnitude(s: string): Option<nat> {
    var k := |s| - 1;
    if s == [] || !IsDigit(s[k]) then None
    else if k == 0 then Some(DigitValue(s[0]))
    else
      match Magnitude(if s[k - 1] == '_' then s[..k - 1] else s[..k])
      case None => None
      case Some(n) => Some(10 * n + DigitValue(s[k]))
  }

  function Int(s: string): Option<int> {
    var t := TrimRight(TrimLeft(s));
    if t != [] && (t[0] == '-' || t[0] == '+') then
      match Magnitude(t[1..])
      case None => None
      case Some(n) =>
        var z: int := n;
        Some(if t[0] == '-' then 0 - z else z)
    else
      match Magnitude(t)
      case None => None
      case Some(n) => Some(n)
  }

  // The digits are the ten in their order, and a numeral has no leading zero.
  lemma {:induction false} StrIsDecimal(n: nat)
    ensures n < 10 ==> Str(n) == ["0123456789"[n]]
    ensures n >= 10 ==> Str(n) == Str(n / 10) + ["0123456789"[n % 10]]
    ensures Str(n)[0] == '0' ==> n == 0
  {
    assert "0123456789"[n % 10] == DigitChar(n % 10);
    if n >= 10 { StrIsDecimal(n / 10); }
  }

  lemma {:induction false} MagnitudeOfStr(n: nat)
    ensures Magnitude(Str(n)) == Some(n)
  {
    if n >= 10 {
      MagnitudeOfStr(n / 10);
      var s := Str(n);
      assert s[..|s| - 1] == Str(n / 10);
      assert s[|s| - 2] in s;
    }
  }

  lemma {:induction false} IntOfStr(n: nat)
    ensures Int(Str(n)) == Some(n)
  {
    MagnitudeOfStr(n);
    var s := Str(n);
    assert s[0] in s && s[|s| - 1] in s;
  }

  lemma IntOfPlain(text: string, n: nat)
    requires TrimRight(TrimLeft(text)) == Str(n)
    ensures Int(text) == Some(n)
  {
    MagnitudeOfStr(n);
    assert Str(n)[0] in Str(n);
    hide Magnitude, Str, TrimLeft, TrimRight;
  }

  lemma IntOfSigned(text: string, sign: char, n: nat)
    requires sign in {'+', '-'} && TrimRight(TrimLeft(text)) == [sign] + Str(n)
    ensures Int(text) == Some(if sign == '-' then 0 - n else n)
  {
    MagnitudeOfStr(n);
    assert ([sign] + Str(n))[1..] == Str(n);
    hide Magnitude, Str, TrimLeft, TrimRight;
  }

  // Spaces around a numeral are skipped, and a sign in front of it is read.
  lemma IntOfSpaced(before: string, sign: char, n: nat, after: string)
    requires (forall c | c in before + after :: IsSpace(c)) && sign in {'+', '-'}
    ensures Int(before + Str(n) + after) == Some(n)
    ensures Int(before + ([sign] + Str(n)) + after) == Some(if sign == '-' then 0 - n else n)
  {
    assert Str(n)[0] in Str(n) && Str(n)[|Str(n)| - 1] in Str(n);
    hide Int, Str, TrimLeft, TrimRight;
    Trimmed(before, Str(n), after);
    Trimmed(before, [sign] + Str(n), after);
    IntOfPlain(before + Str(n) + after, n);
    IntOfSigned(before + ([sign] + Str(n)) + after, sign, n);
  }

  lemma {:induction false} TrimmedLeft(before: string, s: string)
    requires s != [] && !IsSpace(s[0]) && forall c | c in before :: IsSpace(c)
    ensures TrimLeft(before + s) == s
    decreases |before|
  {
    if before == [] {
      assert before + s == s;
    } else {
      assert before[0] in before && (before + s)[1..] == before[1..] + s;
      TrimmedLeft(before[1..], s);
    }
  }

  lemma {:induction false} TrimmedRight(s: string, after: string)
    requires s != [] && !IsSpace(s[|s| - 1]) && forall c | c in after :: IsSpace(c)
    ensures TrimRight(s + after) == s
    decreases |after|
  {
    if after == [] {
      assert s + after == s;
    } else {
      var k := |after| - 1;
      assert after[k] in after && (s + after)[..|s + after| - 1] == s + after[..k];
      TrimmedRight(s, after[..k]);
    }
  }

  lemma Trimmed(before: string, s: string, after: string)
    requires s != [] && !IsSpace(s[0]) && !IsSpace(s[|s| - 1]) && forall c | c in before + after :: IsSpace(c)
    ensures TrimRight(TrimLeft(before + s + after)) == s
  {
    assert forall c | c in before :: c in before + after;
    assert forall c | c in after :: c in before + after;
    assert before + s + after == before + (s + after) && (s + after)[0] == s[0];
    TrimmedLeft(before, s + after);
    TrimmedRight(s, after);
  }
}
