// Hexadecimal digits as cpp-httplib reads and prints them.
module Hex {
  import opened Wrappers

  type Byte = x: int | 0 <= x < 256

  // `is_hex`.
  function DigitValue(c: Byte): Option<nat> {
    if 48 <= c <= 57 then Some(c - 48)
    else if 65 <= c <= 70 then Some(c - 65 + 10)
    else if 97 <= c <= 102 then Some(c - 97 + 10)
    else None
  }

  function LowerDigit(v: nat): (c: Byte)
    requires v < 16
    ensures DigitValue(c) == Some(v)
  {
    if v < 10 then 48 + v else 87 + v
  }

  function UpperDigit(v: nat): (c: Byte)
    requires v < 16
    ensures DigitValue(c) == Some(v)
  {
    if v < 10 then 48 + v else 55 + v
  }

  // The number a string of hex digits stands for.
  function Value(s: seq<Byte>): Option<nat> {
    if s == [] then Some(0)
    else
      var k := |s| - 1;
      match Value(s[..k])
      case None => None
      case Some(high) =>
        match DigitValue(s[k])
        case None => None
        case Some(low) => Some(16 * high + low)
  }

  function Numeral(n: nat): (s: seq<Byte>)
    ensures s != []
  {
    if n < 16 then [LowerDigit(n)] else Numeral(n / 16) + [LowerDigit(n % 16)]
  }

  lemma {:induction false} NumeralStandsFor(n: nat)
    ensures Value(Numeral(n)) == Some(n)
  {
    if n < 16 {
      assert [LowerDigit(n)][..0] == [];
    } else {
      NumeralStandsFor(n / 16);
      var s := Numeral(n);
      assert s[..|s| - 1] == Numeral(n / 16);
    }
  }

  // The numeral is written in lower case, without leading zeros.
  lemma {:induction false} NumeralIsLowerCase(n: nat)
    ensures forall c | c in Numeral(n) :: c as char in "0123456789abcdef"
    ensures Numeral(n)[0] as char == '0' ==> n == 0
  {
    LowerDigitsInOrder(n % 16);
    if n >= 16 { NumeralIsLowerCase(n / 16); }
  }

  lemma LowerDigitsInOrder(v: nat)
    requires v < 16
    ensures LowerDigit(v) as char == "0123456789abcdef"[v] && LowerDigit(v) as char in "0123456789abcdef"
  {}

  // Digits are read in either case.
  lemma DigitValues(v: nat)
    requires v < 16
    ensures DigitValue("0123456789abcdef"[v] as int) == DigitValue("0123456789ABCDEF"[v] as int) == Some(v)
  {}

  lemma {:induction false} DigitsHaveValue(s: seq<Byte>)
    ensures Value(s).Some? <==> forall c | c in s :: DigitValue(c).Some?
  {
    if s != [] {
      var k := |s| - 1;
      DigitsHaveValue(s[..k]);
      assert s == s[..k] + [s[k]];
    }
  }

  // `from_i_to_hex`: the digits are put in front, lowest first.
  method FromIToHex(number: nat) returns (ret: seq<Byte>)
    ensures ret == Numeral(number)
  {
    ret := [LowerDigit(number % 16)];
    var n := number / 16;
    while n > 0
      invariant Numeral(number) == (if n > 0 then Numeral(n) else []) + ret
    {
      ret := [LowerDigit(n % 16)] + ret;
      n := n / 16;
    }
  }

  // The value of the `cnt` digits from `i` on, if the string has that many there.
  function Digits(s: seq<Byte>, i: nat, cnt: nat): Option<nat> {
    if i < |s| && i + cnt <= |s| then Value(s[i..i + cnt]) else None
  }

  // `from_hex_to_i`: exactly `cnt` digits from `i` on.  Past the end the string reads as zero.
  method FromHexToI(s: seq<Byte>, i: nat, cnt: nat) returns (ok: bool, val: nat)
    ensures Digits(s, i, cnt) == if ok then Some(val) else None
  {
    val := 0;
    if i >= |s| {
      return false, val;
    }
    var j, left := i, cnt;
    assert s[i..j] == [];
    hide Value, DigitValue;
    while left > 0
      invariant i <= j <= |s| && j - i == cnt - left
      invariant Value(s[i..j]) == Some(val)
      decreases left
    {
      if j == |s| || s[j] == 0 {
        ZeroIsNoDigit();
        if i + cnt <= |s| { PrefixHasDigits(s[i..i + cnt], j - i); }
        return false, val;
      }
      match DigitValue(s[j])
      case None =>
        if i + cnt <= |s| { PrefixHasDigits(s[i..i + cnt], j - i); }
        return false, val;
      case Some(v) =>
        ValueOfOneMore(s, i, j);
        val := val * 16 + v;
        j := j + 1;
        left := left - 1;
    }
    return true, val;
  }

  lemma ValueOfOneMore(s: seq<Byte>, i: nat, j: nat)
    requires i <= j < |s| && Value(s[i..j]).Some?
    ensures DigitValue(s[j]).Some? ==>
              Value(s[i..j + 1]) == Some(16 * Value(s[i..j]).value + DigitValue(s[j]).value)
  {
    assert s[i..j + 1][..j - i] == s[i..j];
  }

  lemma ZeroIsNoDigit()
    ensures DigitValue(0) == None
  {}

  lemma PrefixHasDigits(s: seq<Byte>, k: nat)
    requires k <= |s|
    ensures Value(s).Some? ==> forall c | c in s :: DigitValue(c).Some?
    ensures k < |s| ==> s[k] in s
  {
    DigitsHaveValue(s);
  }
}
