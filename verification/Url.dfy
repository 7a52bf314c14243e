// Percent-encoding of query parameters, on bytes.
module Url {
  import opened Wrappers
  import opened Hex

  const PERCENT: Byte := 37
  const PLUS: Byte := 43
  const SPACE: Byte := 32
  const LETTER_U: Byte := 117

  // ---------- encoding ----------

  predicate IsAlnum(c: Byte) {
    48 <= c <= 57 || 65 <= c <= 90 || 97 <= c <= 122
  }

  // Letters, digits and - _ . ! ~ * ' ( ).
  predicate IsKept(c: Byte) {
    IsAlnum(c) || c in {45, 95, 46, 33, 126, 42, 39, 40, 41}
  }

  function Escape(c: Byte): seq<Byte> {
    if IsKept(c) then [c] else [PERCENT, UpperDigit(c / 16), UpperDigit(c % 16)]
  }

  function Encoded(s: seq<Byte>): seq<Byte> {
    if s == [] then [] else Encoded(s[..|s| - 1]) + Escape(s[|s| - 1])
  }

  method EncodeQueryParam(value: seq<Byte>) returns (escaped: seq<Byte>)
    ensures escaped == Encoded(value)
  {
    escaped := [];
    for i := 0 to |value|
      invariant escaped == Encoded(value[..i])
    {
      var c := value[i];
      assert value[..i + 1][..i] == value[..i];
      if IsKept(c) {
        escaped := escaped + [c];
      } else {
        escaped := escaped + [PERCENT, UpperDigit(c / 16), UpperDigit(c % 16)];
      }
    }
    assert value[..|value|] == value;
  }

  // What may stand in a query as it is.
  const UPPER := "ABCDEFGHIJKLMNOPQRSTUVWXYZ"
  const LOWER := "abcdefghijklmnopqrstuvwxyz"
  const DIGITS := "0123456789"
  const MARKS := "-_.!~*'()"

  predicate IsUnreserved(c: Byte) {
    c as char in UPPER || c as char in LOWER || c as char in DIGITS || c as char in MARKS
  }

  lemma UpperLetters(c: Byte)
    ensures c as char in UPPER <==> 65 <= c <= 90
  {
    if 65 <= c <= 90 { assert UPPER[c - 65] == c as char; }
  }

  lemma LowerLetters(c: Byte)
    ensures c as char in LOWER <==> 97 <= c <= 122
  {
    if 97 <= c <= 122 { assert LOWER[c - 97] == c as char; }
  }

  lemma LettersAreAlphabet(c: Byte)
    ensures c as char in UPPER || c as char in LOWER <==> 65 <= c <= 90 || 97 <= c <= 122
    ensures c as char in DIGITS <==> 48 <= c <= 57
  {
    UpperLetters(c);
    LowerLetters(c);
    if 48 <= c <= 57 { assert DIGITS[c - 48] == c as char; }
  }

  lemma MarksAreKept(c: Byte)
    ensures c as char in MARKS <==> c in {45, 95, 46, 33, 126, 42, 39, 40, 41}
  {
    if c in {45, 95, 46, 33, 126, 42, 39, 40, 41} {
      assert MARKS[0] == '-' && MARKS[1] == '_' && MARKS[2] == '.' && MARKS[3] == '!' && MARKS[4] == '~';
      assert MARKS[5] == '*' && MARKS[6] == '\'' && MARKS[7] == '(' && MARKS[8] == ')';
    }
  }

  lemma KeptAreUnreserved(c: Byte)
    ensures IsKept(c) <==> IsUnreserved(c)
  {
    LettersAreAlphabet(c);
    MarksAreKept(c);
  }

  predicate IsUpperHex(c: Byte) {
    c as char in "0123456789ABCDEF"
  }

  lemma UpperDigitsAreHex(v: nat)
    requires v < 16
    ensures IsUpperHex(UpperDigit(v))
  {
    assert "0123456789ABCDEF"[v] == UpperDigit(v) as char;
  }

  // One byte: an unreserved one stays, any other becomes a percent sign and its two upper-case
  // hexadecimal digits.
  lemma EncodedByte(c: Byte)
    ensures Encoded([c]) == Escape(c)
    ensures IsUnreserved(c) ==> Escape(c) == [c]
    ensures !IsUnreserved(c) ==>
              && |Escape(c)| == 3 && Escape(c)[0] as char == '%'
              && IsUpperHex(Escape(c)[1]) && IsUpperHex(Escape(c)[2])
              && Value(Escape(c)[1..]) == Some(c)
  {
    assert [c][..0] == [];
    KeptAreUnreserved(c);
    UpperDigitsAreHex(c / 16);
    UpperDigitsAreHex(c % 16);
    if !IsKept(c) { TwoDigits(c); }
  }

  lemma TwoDigits(c: Byte)
    ensures Value([UpperDigit(c / 16), UpperDigit(c % 16)]) == Some(c)
  {
    var high, low := UpperDigit(c / 16), UpperDigit(c % 16);
    assert [high, low][..1] == [high] && [high][..0] == [];
    assert Value([high]) == Some(c / 16);
  }

  lemma EncodedSnoc(s: seq<Byte>, c: Byte)
    ensures Encoded(s + [c]) == Encoded(s) + Escape(c)
  {
    assert (s + [c])[..|s|] == s;
  }

  // Byte by byte.
  lemma {:induction false} EncodedOfConcat(s: seq<Byte>, t: seq<Byte>)
    ensures Encoded(s + t) == Encoded(s) + Encoded(t)
    decreases |t|
  {
    assert Encoded([]) == [];
    hide Encoded, Escape;
    if t == [] {
      assert s + t == s;
    } else {
      var front, c := t[..|t| - 1], t[|t| - 1];
      EncodedOfConcat(s, front);
      EncodedSnoc(s + front, c);
      EncodedSnoc(front, c);
      assert t == front + [c];
      Reassociate(s, front, [c]);
      Reassociate(Encoded(s), Encoded(front), Escape(c));
    }
  }

  lemma EscapeIsPlain(c: Byte)
    ensures forall b | b in Escape(c) :: IsUnreserved(b) || b as char == '%'
    ensures |Escape(c)| >= 1 && (Escape(c) == [c] <==> IsUnreserved(c)) && (|Escape(c)| == 1 <==> IsUnreserved(c))
  {
    EncodedByte(c);
    if !IsUnreserved(c) {
      HexIsUnreserved(Escape(c)[1]);
      HexIsUnreserved(Escape(c)[2]);
    }
  }

  lemma HexIsUnreserved(c: Byte)
    requires IsUpperHex(c)
    ensures IsUnreserved(c)
  {
    UpperLetters(c);
    LettersAreAlphabet(c);
  }

  // So encoded text has nothing but unreserved bytes, and percent signs in front of two digits:
  // none of the characters that separate parameters.
  lemma {:induction false} EncodedIsPlain(s: seq<Byte>)
    ensures forall c | c in Encoded(s) :: IsUnreserved(c) || c as char == '%'
  {
    if s != [] {
      EncodedIsPlain(s[..|s| - 1]);
      EscapeIsPlain(s[|s| - 1]);
      hide Escape, IsUnreserved;
    }
  }

  // Text without anything to escape is all that stays as it is.
  lemma {:induction false} UnchangedExactly(s: seq<Byte>)
    ensures |Encoded(s)| >= |s|
    ensures Encoded(s) == s <==> forall c | c in s :: IsUnreserved(c)
  {
    if s != [] {
      var k := |s| - 1;
      UnchangedExactly(s[..k]);
      EscapeIsPlain(s[k]);
      hide Escape, IsUnreserved;
      assert Encoded(s) == Encoded(s[..k]) + Escape(s[k]);
      assert s == s[..k] + [s[k]];
      EqualParts(Encoded(s[..k]), Escape(s[k]), s[..k], [s[k]]);
      hide Encoded;
    }
  }

  lemma EqualParts(a: seq<Byte>, b: seq<Byte>, c: seq<Byte>, d: seq<Byte>)
    requires |a| >= |c| && |b| >= |d|
    ensures a + b == c + d <==> a == c && b == d
  {
    if a + b == c + d {
      assert |a| == |c|;
      assert a == (a + b)[..|a|] && c == (c + d)[..|c|] && b == (a + b)[|a|..] && d == (c + d)[|c|..];
    }
  }

  // ---------- code points ----------

  // `to_utf8`: no bytes for a surrogate or a value beyond the last code point.
  function ToUtf8(code: nat): seq<Byte> {
    if code < 0x80 then [code]
    else if code < 0x800 then [0xC0 + code / 64 % 32, 0x80 + code % 64]
    else if code < 0xD800 then [0xE0 + code / 4096 % 16, 0x80 + code / 64 % 64, 0x80 + code % 64]
    else if code < 0xE000 then []
    else if code < 0x1_0000 then [0xE0 + code / 4096 % 16, 0x80 + code / 64 % 64, 0x80 + code % 64]
    else if code < 0x11_0000 then
      [0xF0 + code / 262144 % 8, 0x80 + code / 4096 % 64, 0x80 + code / 64 % 64, 0x80 + code % 64]
    else []
  }

  // The six low bits of a continuation byte, in front of which `high` was read.
  function Extend(high: Option<nat>, b: Byte): Option<nat> {
    if high.Some? && 0x80 <= b < 0xC0 then Some(high.value * 64 + (b as int - 0x80)) else None
  }

  function LeadBits(b: Byte, lead: nat, size: nat): Option<nat> {
    if lead <= b < lead + size then Some(b as int - lead) else None
  }

  // The code point that a well-formed sequence stands for (RFC 3629, section 3).
  function FromUtf8(s: seq<Byte>): Option<nat> {
    if |s| == 1 then LeadBits(s[0], 0, 0x80)
    else if |s| == 2 then Extend(LeadBits(s[0], 0xC0, 32), s[1])
    else if |s| == 3 then Extend(Extend(LeadBits(s[0], 0xE0, 16), s[1]), s[2])
    else if |s| == 4 then Extend(Extend(Extend(LeadBits(s[0], 0xF0, 8), s[1]), s[2]), s[3])
    else None
  }

  lemma ReadBack(a: nat, b: nat, c: nat, d: nat)
    requires b < 64 && c < 64 && d < 64
    ensures a < 32 ==> FromUtf8([0xC0 + a, 0x80 + b]) == Some(a * 64 + b)
    ensures a < 16 ==> FromUtf8([0xE0 + a, 0x80 + b, 0x80 + c]) == Some((a * 64 + b) * 64 + c)
    ensures a < 8 ==> FromUtf8([0xF0 + a, 0x80 + b, 0x80 + c, 0x80 + d]) == Some(((a * 64 + b) * 64 + c) * 64 + d)
  {}

  lemma ShiftsCompose(n: nat)
    ensures n / 4096 == n / 64 / 64 && n / 262144 == n / 64 / 64 / 64
  {}

  lemma Split(n: nat)
    ensures n / 64 * 64 + n % 64 == n && n % 64 < 64
  {}

  lemma ByLength(code: nat)
    ensures var q := code / 64; var r := q / 64;
            && (code < 0x80 ==> ToUtf8(code) == [code])
            && (0x80 <= code < 0x800 ==> q < 32 && ToUtf8(code) == [0xC0 + q, 0x80 + code % 64])
            && (0x800 <= code < 0x1_0000 && !(0xD800 <= code < 0xE000) ==>
                r < 16 && ToUtf8(code) == [0xE0 + r, 0x80 + q % 64, 0x80 + code % 64])
            && (0x1_0000 <= code < 0x11_0000 ==>
                r / 64 < 8 && ToUtf8(code) == [0xF0 + r / 64, 0x80 + r % 64, 0x80 + q % 64, 0x80 + code % 64])
  {
    ShiftsCompose(code);
  }

  // Exactly the code points that are not surrogates are written, and each can be read back.
  lemma {:induction false} Utf8RoundTrip(code: nat)
    ensures FromUtf8(ToUtf8(code)) == if code < 0xD800 || 0xE000 <= code < 0x11_0000 then Some(code) else None
  {
    var q, r := code / 64, code / 64 / 64;
    Split(code);
    Split(q);
    Split(r);
    ByLength(code);
    if 0x80 <= code < 0x11_0000 && !(0xD800 <= code < 0xE000) {
      hide ToUtf8, FromUtf8;
      if code < 0x800 {
        ReadBack(q, code % 64, 0, 0);
      } else if code < 0x1_0000 {
        ReadBack(r, q % 64, code % 64, 0);
      } else {
        ReadBack(r / 64, r % 64, q % 64, code % 64);
      }
    }
  }

  // ---------- decoding ----------

  // What the next step of decoding takes from the front, and what it appends.
  datatype Step = Step(taken: nat, bytes: seq<Byte>)

  function Next(s: seq<Byte>, plusIsSpace: bool): (r: Step)
    requires s != []
    ensures 1 <= r.taken <= |s|
  {
    var plain := Step(1, [s[0]]);
    if s[0] == PERCENT && |s| > 1 then
      if s[1] == LETTER_U then
        match Digits(s, 2, 4)
        case Some(code) => Step(6, ToUtf8(code))
        case None => plain
      else
        match Digits(s, 1, 2)
        case Some(code) => Step(3, [code % 256])
        case None => plain
    else if plusIsSpace && s[0] == PLUS then Step(1, [SPACE])
    else plain
  }

  function Decoded(s: seq<Byte>, plusIsSpace: bool): seq<Byte>
    decreases |s|
  {
    if s == [] then []
    else
      var step := Next(s, plusIsSpace);
      step.bytes + Decoded(s[step.taken..], plusIsSpace)
  }

  // A step sees only what is from the current position on.
  lemma DigitsFrom(s: seq<Byte>, i: nat, j: nat, cnt: nat)
    requires i <= |s|
    ensures Digits(s[i..], j, cnt) == Digits(s, i + j, cnt)
  {
    if i + j < |s| && i + j + cnt <= |s| {
      assert s[i..][j..j + cnt] == s[i + j..i + j + cnt];
    }
  }

  // The escape at position i, if there is one.
  function EscapeAt(s: seq<Byte>, i: nat): Option<Step>
    requires i < |s|
  {
    if s[i] != PERCENT || i + 1 >= |s| then None
    else if s[i + 1] == LETTER_U then
      match Digits(s, i + 2, 4)
      case Some(code) => Some(Step(6, ToUtf8(code)))
      case None => None
    else
      match Digits(s, i + 1, 2)
      case Some(code) => Some(Step(3, [code % 256]))
      case None => None
  }

  lemma NextFrom(s: seq<Byte>, i: nat, plusIsSpace: bool)
    requires i < |s|
    ensures Next(s[i..], plusIsSpace) ==
            if EscapeAt(s, i).Some? then EscapeAt(s, i).value
            else Step(1, [if plusIsSpace && s[i] == PLUS then SPACE else s[i]])
  {
    hide Digits, ToUtf8;
    DigitsFrom(s, i, 2, 4);
    DigitsFrom(s, i, 1, 2);
  }

  lemma DecodedFrom(s: seq<Byte>, i: nat, plusIsSpace: bool)
    requires i < |s|
    ensures var step := Next(s[i..], plusIsSpace);
            && i + step.taken <= |s|
            && Decoded(s[i..], plusIsSpace) == step.bytes + Decoded(s[i + step.taken..], plusIsSpace)
  {
    hide Next;
    var step := Next(s[i..], plusIsSpace);
    assert s[i..][step.taken..] == s[i + step.taken..];
  }

  // A step at position i moves bytes from what is still to be decoded to the result.
  lemma OneMoreStep(s: seq<Byte>, i: nat, plusIsSpace: bool, result: seq<Byte>)
    requires i < |s| && Decoded(s, plusIsSpace) == result + Decoded(s[i..], plusIsSpace)
    ensures var step := Next(s[i..], plusIsSpace);
            && i + step.taken <= |s|
            && Decoded(s, plusIsSpace) == (result + step.bytes) + Decoded(s[i + step.taken..], plusIsSpace)
  {
    DecodedFrom(s, i, plusIsSpace);
    hide Next, Decoded;
    var step := Next(s[i..], plusIsSpace);
    Reassociate(result, step.bytes, Decoded(s[i + step.taken..], plusIsSpace));
  }

  method DecodeUrl(s: seq<Byte>, convertPlusToSpace: bool) returns (result: seq<Byte>)
    ensures result == Decoded(s, convertPlusToSpace)
  {
    result := [];
    var i := 0;
    assert s[0..] == s;
    while i < |s|
      invariant i <= |s|
      invariant Decoded(s, convertPlusToSpace) == result + Decoded(s[i..], convertPlusToSpace)
    {
      hide Next, Decoded, ToUtf8, Digits;
      ghost var from, was, step := i, result, Next(s[i..], convertPlusToSpace);
      NextFrom(s, i, convertPlusToSpace);
      OneMoreStep(s, i, convertPlusToSpace, result);
      if s[i] == PERCENT && i + 1 < |s| {
        if s[i + 1] == LETTER_U {
          var ok, val := FromHexToI(s, i + 2, 4);
          if ok {
            result := result + ToUtf8(val);
            i := i + 5;
          } else {
            result := result + [s[i]];
          }
        } else {
          var ok, val := FromHexToI(s, i + 1, 2);
          if ok {
            result := result + [val % 256];
            i := i + 2;
          } else {
            result := result + [s[i]];
          }
        }
      } else if convertPlusToSpace && s[i] == PLUS {
        result := result + [SPACE];
      } else {
        result := result + [s[i]];
      }
      i := i + 1;
      assert i == from + step.taken && result == was + step.bytes;
    }
  }

  lemma Reassociate(a: seq<Byte>, b: seq<Byte>, c: seq<Byte>)
    ensures a + (b + c) == (a + b) + c
  {}

  // ---------- what the other escapes mean ----------

  // Four hexadecimal digits behind "%u" stand for a code point, which is written in UTF-8.
  lemma WideEscape(h: seq<Byte>, code: nat, rest: seq<Byte>, plusIsSpace: bool)
    requires |h| == 4 && Value(h) == Some(code)
    ensures Decoded([PERCENT, LETTER_U] + h + rest, plusIsSpace) == ToUtf8(code) + Decoded(rest, plusIsSpace)
    ensures !(0xD800 <= code < 0xE000) ==> FromUtf8(ToUtf8(code)) == Some(code)
    ensures 0xD800 <= code < 0xE000 ==> ToUtf8(code) == []
    ensures PERCENT as char == '%' && LETTER_U as char == 'u'
  {
    hide ToUtf8, FromUtf8, Value;
    var s := [PERCENT, LETTER_U] + h + rest;
    assert s[2..6] == h && s[6..] == rest;
    ValueIsBounded(h);
    assert Power16(4) == 65536;
    Utf8RoundTrip(code);
    SurrogatesAreDropped(code);
  }

  lemma SurrogatesAreDropped(code: nat)
    ensures 0xD800 <= code < 0xE000 ==> ToUtf8(code) == []
  {}

  function Power16(n: nat): nat {
    if n == 0 then 1 else 16 * Power16(n - 1)
  }

  lemma {:induction false} ValueIsBounded(h: seq<Byte>)
    requires Value(h).Some?
    ensures Value(h).value < Power16(|h|)
    decreases |h|
  {
    if h != [] { ValueIsBounded(h[..|h| - 1]); }
  }

  // Every plus sign written as the escape of a space.
  function Spaced(s: seq<Byte>): seq<Byte> {
    if s == [] then [] else (if s[0] == PLUS then Escape(SPACE) else [s[0]]) + Spaced(s[1..])
  }

  lemma SpaceIsEscaped()
    ensures |Escape(SPACE)| == 3 && Escape(SPACE)[0] == PERCENT
    ensures PLUS as char == '+' && SPACE as char == ' '
  {}

  // Up to the first plus sign of the one, or the first percent sign of the other, the two agree.
  lemma {:induction false} SpacedPrefix(s: seq<Byte>, k: nat)
    requires (k <= |s| && PLUS !in s[..k]) || (k <= |Spaced(s)| && PERCENT !in Spaced(s)[..k])
    ensures k <= |s| && k <= |Spaced(s)| && PLUS !in s[..k] && Spaced(s)[..k] == s[..k]
    ensures Spaced(s)[k..] == Spaced(s[k..])
    decreases |s|
  {
    if k > 0 {
      SpaceIsEscaped();
      if k <= |s| && PLUS !in s[..k] {
        assert s[0] in s[..k];
      } else {
        assert Spaced(s)[0] in Spaced(s)[..k];
      }
      assert s != [] && s[0] != PLUS;
      var rest := s[1..];
      assert Spaced(s) == [s[0]] + Spaced(rest) && Spaced(s)[1..] == Spaced(rest);
      assert k <= |s| ==> rest[..k - 1] == s[..k][1..];
      assert k <= |Spaced(s)| ==> Spaced(rest)[..k - 1] == Spaced(s)[..k][1..];
      SpacedPrefix(rest, k - 1);
      assert s[..k] == [s[0]] + rest[..k - 1] && Spaced(s)[..k] == [s[0]] + Spaced(rest)[..k - 1];
      assert Spaced(s)[k..] == Spaced(rest)[k - 1..] && s[k..] == rest[k - 1..];
    }
  }

  lemma NoSignInDigits(s: seq<Byte>)
    requires Value(s).Some?
    ensures PLUS !in s && PERCENT !in s
  {
    DigitsHaveValue(s);
  }

  lemma DigitsStay(s: seq<Byte>, j: nat, cnt: nat)
    requires j + cnt <= |s| && PLUS !in s[..j] && cnt > 0 && Value(s[j..j + cnt]).Some?
    ensures j + cnt <= |Spaced(s)| && Spaced(s)[j..j + cnt] == s[j..j + cnt] && PLUS !in s[..j + cnt]
  {
    NoSignInDigits(s[j..j + cnt]);
    hide Value, Spaced;
    assert s[..j + cnt] == s[..j] + s[j..j + cnt];
    SpacedPrefix(s, j + cnt);
    assert Spaced(s)[..j + cnt][j..] == Spaced(s)[j..j + cnt] && s[..j + cnt][j..] == s[j..j + cnt];
  }

  lemma DigitsWereThere(s: seq<Byte>, j: nat, cnt: nat)
    requires j <= |s| && PLUS !in s[..j] && cnt > 0
    requires j + cnt <= |Spaced(s)| && Value(Spaced(s)[j..j + cnt]).Some?
    ensures j + cnt <= |s| && Spaced(s)[j..j + cnt] == s[j..j + cnt]
  {
    NoSignInDigits(Spaced(s)[j..j + cnt]);
    hide Value, Spaced;
    SpacedPrefix(s, j);
    assert Spaced(s)[j..][..cnt] == Spaced(s)[j..j + cnt];
    SpacedPrefix(s[j..], cnt);
    assert s[j..][..cnt] == s[j..j + cnt];
  }

  lemma SameDigits(s: seq<Byte>, j: nat, cnt: nat)
    requires j <= |s| && PLUS !in s[..j] && cnt > 0
    ensures Digits(Spaced(s), j, cnt) == Digits(s, j, cnt)
    ensures Digits(s, j, cnt).Some? ==> j + cnt <= |s| && PLUS !in s[..j + cnt]
  {
    if Digits(s, j, cnt).Some? {
      DigitsStay(s, j, cnt);
    } else if Digits(Spaced(s), j, cnt).Some? {
      DigitsWereThere(s, j, cnt);
    }
    hide Value, Spaced;
  }

  // The next step on the rewritten text, without the flag, is the next step with it.
  lemma SameStep(s: seq<Byte>)
    requires s != []
    ensures Spaced(s) != [] && Next(Spaced(s), false).bytes == Next(s, true).bytes
    ensures Spaced(s)[Next(Spaced(s), false).taken..] == Spaced(s[Next(s, true).taken..])
  {
    SpaceIsEscaped();
    if s[0] == PLUS {
      EscapeIsOneStep(SPACE, Spaced(s[1..]), false);
    } else {
      assert s[..1] == [s[0]];
      SpacedPrefix(s, 1);
      if s[0] == PERCENT && |s| > 1 {
        assert Spaced(s)[1..] == Spaced(s[1..]) != [];
        SameDigits(s, 1, 2);
        assert Spaced(s)[1] == if s[1] == PLUS then PERCENT else s[1];
        if s[1] == LETTER_U {
          assert s[..2] == [s[0], s[1]];
          SameDigits(s, 2, 4);
        }
        hide Digits, Spaced;
        SpacedPrefix(s, Next(s, true).taken);
      } else {
        assert |s| == 1 ==> s[1..] == [];
      }
    }
  }

  // With the flag a plus sign means exactly what the escape of a space means without it.
  lemma {:induction false} PlusIsEscapedSpace(s: seq<Byte>)
    ensures Decoded(s, true) == Decoded(Spaced(s), false)
    decreases |s|
  {
    if s != [] {
      SameStep(s);
      var step := Next(s, true);
      PlusIsEscapedSpace(s[step.taken..]);
      hide Next, Spaced;
    }
  }

  // ---------- the two undo each other ----------

  lemma EscapeIsOneStep(c: Byte, rest: seq<Byte>, plusIsSpace: bool)
    ensures Next(Escape(c) + rest, plusIsSpace) == Step(|Escape(c)|, [c])
  {
    if !IsKept(c) {
      var s := Escape(c) + rest;
      var high, low := UpperDigit(c / 16), UpperDigit(c % 16);
      assert s[1..3] == [high, low];
      TwoDigits(c);
      assert high != LETTER_U;
    }
  }

  lemma {:induction false} DecodeAfterEncode(s: seq<Byte>, rest: seq<Byte>, plusIsSpace: bool)
    ensures Decoded(Encoded(s) + rest, plusIsSpace) == s + Decoded(rest, plusIsSpace)
    decreases |s|
  {
    hide Next, Escape;
    if s == [] {
      assert Encoded(s) + rest == rest;
    } else {
      var front, c := s[..|s| - 1], s[|s| - 1];
      EscapeIsOneStep(c, rest, plusIsSpace);
      DecodeAfterEncode(front, Escape(c) + rest, plusIsSpace);
      assert Encoded(s) + rest == Encoded(front) + (Escape(c) + rest);
      assert (Escape(c) + rest)[|Escape(c)|..] == rest;
      assert s == front + [c];
    }
  }

  // Decoding undoes encoding on every byte string, whether or not '+' is read as a space.
  lemma RoundTrip(s: seq<Byte>, plusIsSpace: bool)
    ensures Decoded(Encoded(s), plusIsSpace) == s
  {
    DecodeAfterEncode(s, [], plusIsSpace);
    assert Encoded(s) + [] == Encoded(s);
  }
}
