// Snappy's varint coder for 32-bit values.
module Varint {

  import opened Bits

  datatype Result = Rejected | Parsed(value: bv32, length: nat)

  // ---------- the format: seven bits a byte, low bits first, high bit set on all but the last ----------

  function Final(v: bv32): Byte {
    (v & 0x7F) as bv8
  }

  function More(v: bv32): Byte {
    ((v & 0x7F) | 0x80) as bv8
  }

  function DropSeven(v: bv32): bv32 {
    v >> 7
  }

  function Encoding(v: bv32): (r: seq<Byte>)
    ensures r != []
    decreases v
  {
    if v < 128 then [Final(v)] else [More(v)] + Encoding(DropSeven(v))
  }

  function Low(b: Byte): bv32 {
    b as bv32 & 0x7F
  }

  function Or(x: bv32, y: bv32): bv32 { x | y }

  function Shl7(x: bv32): bv32 { x << 7 }

  function Shl14(x: bv32): bv32 { x << 14 }

  function Shl21(x: bv32): bv32 { x << 21 }

  function Shl28(x: bv32): bv32 { x << 28 }

  function Join(b: Byte, rest: bv32): bv32 {
    Or(Low(b), Shl7(rest))
  }

  // Reads from byte number `i` of a value; the fifth byte has four bits left.
  function Parse(s: seq<Byte>, i: nat): (r: Result)
    requires i <= 4
    ensures r.Parsed? ==> 1 <= r.length <= 5 - i && r.length <= |s|
    decreases 4 - i
  {
    if s == [] then Rejected
    else if i == 4 then (if s[0] < 16 then Parsed(s[0] as bv32, 1) else Rejected)
    else if s[0] < 128 then Parsed(s[0] as bv32, 1)
    else
      match Parse(s[1..], i + 1)
      case Rejected => Rejected
      case Parsed(rest, n) => Parsed(Join(s[0], rest), n + 1)
  }

  // What is left of a 32-bit value after `i` bytes.
  predicate Fits(v: bv32, i: nat) {
    match i {
      case 0 => true
      case 1 => v < 0x200_0000
      case 2 => v < 0x4_0000
      case 3 => v < 0x800
      case _ => v < 16
    }
  }

  lemma SplitAndJoin(v: bv32)
    ensures v < 128 ==> Final(v) < 128 && Final(v) as bv32 == v
    ensures v < 16 ==> Final(v) < 16
    ensures More(v) >= 128 && Join(More(v), DropSeven(v)) == v
  {}

  lemma DropSevenFits(v: bv32, i: nat)
    requires i < 4 && Fits(v, i)
    ensures Fits(DropSeven(v), i + 1)
  {}

  lemma FourBitsAreShort(v: bv32)
    requires Fits(v, 4)
    ensures v < 16
  {}

  lemma {:induction false} ParseEncoding(v: bv32, i: nat, suffix: seq<Byte>)
    requires i <= 4 && Fits(v, i)
    ensures Parse(Encoding(v) + suffix, i) == Parsed(v, |Encoding(v)|)
    decreases 4 - i
  {
    hide Final, More, Join, DropSeven, Fits;
    SplitAndJoin(v);
    if i == 4 {
      FourBitsAreShort(v);
    } else if v >= 128 {
      DropSevenFits(v, i);
      ParseEncoding(DropSeven(v), i + 1, suffix);
      assert (Encoding(v) + suffix)[1..] == Encoding(DropSeven(v)) + suffix;
    }
  }

  // Every 32-bit value, followed by anything, is read back, and reading stops at its end.
  lemma RoundTrip(v: bv32, suffix: seq<Byte>)
    ensures Parse(Encoding(v) + suffix, 0) == Parsed(v, |Encoding(v)|)
    ensures 1 <= |Encoding(v)| <= 5
  {
    ParseEncoding(v, 0, suffix);
    ParseEncoding(v, 0, []);
    assert Encoding(v) + [] == Encoding(v);
  }

  // What is read decides the bytes read: a shorter input with the same result does not exist.
  lemma {:induction false} ParseReadsItsLength(s: seq<Byte>, i: nat, k: nat)
    requires i <= 4 && k <= |s|
    ensures Parse(s[..k], i) == if Parse(s, i).Parsed? && Parse(s, i).length <= k then Parse(s, i) else Rejected
    decreases 4 - i
  {
    hide Join;
    if k > 0 && i < 4 {
      ParseReadsItsLength(s[1..], i + 1, k - 1);
      assert s[..k][1..] == s[1..][..k - 1];
    }
  }

  // Every proper prefix of an encoding is rejected.
  lemma PrefixesAreRejected(v: bv32, k: nat)
    requires k < |Encoding(v)|
    ensures Parse(Encoding(v)[..k], 0) == Rejected
  {
    RoundTrip(v, []);
    assert Encoding(v) + [] == Encoding(v);
    ParseReadsItsLength(Encoding(v), 0, k);
  }

  // ---------- which inputs are encodings ----------

  lemma FitsShrinks(v: bv32, i: nat)
    requires 1 <= i <= 4 && Fits(v, i)
    ensures v < 0x200_0000
  {}

  lemma JoinFits(b: Byte, rest: bv32, i: nat)
    requires i < 4 && Fits(rest, i + 1)
    ensures Fits(Join(b, rest), i)
  {}

  lemma JoinSplits(b: Byte, rest: bv32)
    requires rest < 0x200_0000
    ensures DropSeven(Join(b, rest)) == rest
    ensures Join(b, rest) < 128 <==> rest == 0
  {}

  lemma JoinKeepsByte(b: Byte, rest: bv32)
    requires b >= 128
    ensures More(Join(b, rest)) == b
  {}

  lemma ShortFits(b: Byte, i: nat)
    requires i <= 4 && b < 128 && (i == 4 ==> b < 16)
    ensures Fits(b as bv32, i) && Final(b as bv32) == b && (b as bv32 == 0 <==> b == 0) && b as bv32 < 128
  {}

  lemma {:induction false} ParsedFits(s: seq<Byte>, i: nat)
    requires i <= 4 && Parse(s, i).Parsed?
    ensures Fits(Parse(s, i).value, i)
    ensures Parse(s, i).length == 1 ==> (Parse(s, i).value == 0 <==> s[0] == 0)
    decreases 4 - i
  {
    hide Final, Join, Fits;
    if s[0] < 128 {
      ShortFits(s[0], i);
    } else {
      ParsedFits(s[1..], i + 1);
      JoinFits(s[0], Parse(s[1..], i + 1).value, i);
    }
  }

  // One more byte in front: the encoding of the joined value, if what is left is not zero.
  lemma EncodingOfJoin(b: Byte, rest: bv32)
    requires b >= 128 && rest < 0x200_0000
    ensures Encoding(Join(b, rest)) == if rest == 0 then [Final(Join(b, rest))] else [b] + Encoding(rest)
  {
    hide Final, More, Join, DropSeven;
    JoinSplits(b, rest);
    JoinKeepsByte(b, rest);
  }

  ghost predicate IsEncoding(s: seq<Byte>, r: Result) {
    r.Parsed? && r.length <= |s| && s[..r.length] == Encoding(r.value)
  }

  lemma {:induction false} ParsedBytes(s: seq<Byte>, i: nat)
    requires i <= 4 && Parse(s, i).Parsed?
    ensures IsEncoding(s, Parse(s, i)) <==> Parse(s, i).length == 1 || s[Parse(s, i).length - 1] != 0
    decreases 4 - i
  {
    hide Final, More, Join, Fits, Encoding;
    if s[0] < 128 {
      ShortFits(s[0], i);
      ShortEncoding(s[0]);
      assert s[..1] == [s[0]];
    } else {
      var tail := Parse(s[1..], i + 1);
      ParsedFits(s[1..], i + 1);
      FitsShrinks(tail.value, i + 1);
      ParsedBytes(s[1..], i + 1);
      EncodingOfJoin(s[0], tail.value);
      ConsKeepsEncoding(s, tail, Join(s[0], tail.value));
      if tail.value == 0 { ZeroEncoding(); }
    }
  }

  lemma ShortEncoding(b: Byte)
    requires b < 128
    ensures Encoding(b as bv32) == [b]
  {
    ShortFits(b, 0);
  }

  lemma ZeroEncoding()
    ensures Encoding(0) == [0]
  {}

  lemma ConsKeepsEncoding(s: seq<Byte>, tail: Result, v: bv32)
    requires s != [] && tail.Parsed? && 1 <= tail.length < |s|
    requires Encoding(v) == if tail.value == 0 then [Final(v)] else [s[0]] + Encoding(tail.value)
    ensures IsEncoding(s, Parsed(v, tail.length + 1)) <==> tail.value != 0 && IsEncoding(s[1..], tail)
  {
    hide Final, Encoding;
    var n := tail.length;
    assert s[..n + 1] == [s[0]] + s[1..][..n];
    if s[..n + 1] == Encoding(v) && tail.value != 0 {
      assert s[..n + 1][1..] == s[1..][..n] && Encoding(v)[1..] == Encoding(tail.value);
    }
  }

  // Exactly the accepted inputs of one byte and those that do not end in a zero byte are the
  // encoding of what they are read as.
  lemma {:induction false} AcceptedIsEncoding(s: seq<Byte>)
    requires Parse(s, 0).Parsed?
    ensures var v := Parse(s, 0).value; var n := Parse(s, 0).length;
            n <= |s| && (s[..n] == Encoding(v) <==> n == 1 || s[n - 1] != 0)
  {
    hide Encoding, Parse;
    ParsedBytes(s, 0);
  }

  // ---------- the coder ----------

  // The word operations of the coder, by name: the proofs below hide their bits.
  function LowByte(x: bv32): Byte {
    (x & 0xFF) as bv8
  }

  function Marked(x: bv32): bv32 {
    x | 0x80
  }

  function Drop14(x: bv32): bv32 { x >> 14 }

  function Drop21(x: bv32): bv32 { x >> 21 }

  function Drop28(x: bv32): bv32 { x >> 28 }

  predicate Under(x: bv32, n: bv32) {
    x < n
  }

  lemma CastBytes(v: bv32)
    ensures LowByte(Marked(v)) == More(v)
    ensures Under(v, 0x80) ==> LowByte(v) == Final(v)
  {}

  lemma DropTwice(v: bv32)
    ensures DropSeven(DropSeven(v)) == Drop14(v)
    ensures DropSeven(Drop14(v)) == Drop21(v)
    ensures DropSeven(Drop21(v)) == Drop28(v)
  {}

  lemma ShiftBounds(v: bv32)
    ensures Under(v, 0x4000) <==> Under(DropSeven(v), 0x80)
    ensures Under(v, 0x20_0000) <==> Under(Drop14(v), 0x80)
    ensures Under(v, 0x1000_0000) <==> Under(Drop21(v), 0x80)
    ensures Under(Drop28(v), 0x80)
  {}

  lemma Nested(v: bv32)
    ensures Under(v, 0x80) ==> Under(v, 0x4000)
    ensures Under(v, 0x4000) ==> Under(v, 0x20_0000)
    ensures Under(v, 0x20_0000) ==> Under(v, 0x1000_0000)
  {}

  lemma EncodingStep(v: bv32)
    ensures Encoding(v) == if Under(v, 0x80) then [Final(v)] else [More(v)] + Encoding(DropSeven(v))
  {}

  lemma FromTheLeft<T>(a: T, b: T, c: T, d: T, e: T)
    ensures [] + [a] == [a] && [] + [a] + [b] == [a] + [b]
    ensures [] + [a] + [b] + [c] == [a] + ([b] + [c])
    ensures [] + [a] + [b] + [c] + [d] == [a] + ([b] + ([c] + [d]))
    ensures [] + [a] + [b] + [c] + [d] + [e] == [a] + ([b] + ([c] + ([d] + [e])))
  {}

  lemma EncodingByCases(v: bv32)
    ensures Encoding(v) ==
            if Under(v, 0x80) then [] + [Final(v)]
            else if Under(v, 0x4000) then [] + [More(v)] + [Final(DropSeven(v))]
            else if Under(v, 0x20_0000) then [] + [More(v)] + [More(DropSeven(v))] + [Final(Drop14(v))]
            else if Under(v, 0x1000_0000) then
              [] + [More(v)] + [More(DropSeven(v))] + [More(Drop14(v))] + [Final(Drop21(v))]
            else [] + [More(v)] + [More(DropSeven(v))] + [More(Drop14(v))] + [More(Drop21(v))] + [Final(Drop28(v))]
  {
    hide Encoding, More, Final, DropSeven, Drop14, Drop21, Drop28, Under;
    DropTwice(v);
    ShiftBounds(v);
    Nested(v);
    EncodingStep(v);
    EncodingStep(DropSeven(v));
    EncodingStep(Drop14(v));
    EncodingStep(Drop21(v));
    EncodingStep(Drop28(v));
    if Under(v, 0x80) {
      FromTheLeft(Final(v), 0, 0, 0, 0);
    } else if Under(v, 0x4000) {
      FromTheLeft(More(v), Final(DropSeven(v)), 0, 0, 0);
    } else if Under(v, 0x20_0000) {
      FromTheLeft(More(v), More(DropSeven(v)), Final(Drop14(v)), 0, 0);
    } else if Under(v, 0x1000_0000) {
      FromTheLeft(More(v), More(DropSeven(v)), More(Drop14(v)), Final(Drop21(v)), 0);
    } else {
      FromTheLeft(More(v), More(DropSeven(v)), More(Drop14(v)), More(Drop21(v)), Final(Drop28(v)));
    }
  }

  // `*(ptr++) = b` in a buffer written from `start` on.
  method Put(buf: array<Byte>, ghost start: nat, ptr: nat, b: Byte) returns (next: nat)
    requires start <= ptr < buf.Length
    modifies buf
    ensures next == ptr + 1
    ensures buf[..start] == old(buf[..start]) && buf[start..next] == old(buf[start..ptr]) + [b]
    ensures forall k | next <= k < buf.Length :: buf[k] == old(buf[k])
  {
    buf[ptr] := b;
    next := ptr + 1;
  }

  method Encode32(buf: array<Byte>, start: nat, v: bv32) returns (ptr: nat)
    requires start + |Encoding(v)| <= buf.Length
    modifies buf
    ensures ptr == start + |Encoding(v)| && buf[start..ptr] == Encoding(v)
    ensures buf[..start] == old(buf[..start])
    ensures forall k | ptr <= k < buf.Length :: buf[k] == old(buf[k])
  {
    hide LowByte, Marked, DropSeven, Drop14, Drop21, Drop28, Under, More, Final, Encoding;
    EncodingByCases(v);
    ShiftBounds(v);
    Nested(v);
    CastBytes(v); CastBytes(DropSeven(v)); CastBytes(Drop14(v)); CastBytes(Drop21(v));
    CastBytes(Drop28(v));
    ptr := start;
    assert buf[start..ptr] == [];
    if Under(v, 0x80) {
      ptr := Put(buf, start, ptr, LowByte(v));
    } else if Under(v, 0x4000) {
      ptr := Put(buf, start, ptr, LowByte(Marked(v)));
      ptr := Put(buf, start, ptr, LowByte(DropSeven(v)));
    } else if Under(v, 0x20_0000) {
      ptr := Put(buf, start, ptr, LowByte(Marked(v)));
      ptr := Put(buf, start, ptr, LowByte(Marked(DropSeven(v))));
      ptr := Put(buf, start, ptr, LowByte(Drop14(v)));
    } else if Under(v, 0x1000_0000) {
      ptr := Put(buf, start, ptr, LowByte(Marked(v)));
      ptr := Put(buf, start, ptr, LowByte(Marked(DropSeven(v))));
      ptr := Put(buf, start, ptr, LowByte(Marked(Drop14(v))));
      ptr := Put(buf, start, ptr, LowByte(Drop21(v)));
    } else {
      ptr := Put(buf, start, ptr, LowByte(Marked(v)));
      ptr := Put(buf, start, ptr, LowByte(Marked(DropSeven(v))));
      ptr := Put(buf, start, ptr, LowByte(Marked(Drop14(v))));
      ptr := Put(buf, start, ptr, LowByte(Marked(Drop21(v))));
      ptr := Put(buf, start, ptr, LowByte(Drop28(v)));
    }
  }

  lemma ShlOfOr(x: bv32, y: bv32)
    ensures Shl7(Or(x, y)) == Or(Shl7(x), Shl7(y))
  {}

  lemma ShlOfShl(x: bv32)
    ensures Shl7(Shl7(x)) == Shl14(x) && Shl7(Shl14(x)) == Shl21(x) && Shl7(Shl21(x)) == Shl28(x)
  {}

  lemma OrIsAssociative(x: bv32, y: bv32, z: bv32)
    ensures Or(Or(x, y), z) == Or(x, Or(y, z))
  {}

  lemma OrOfJoin(b: Byte, x: bv32, c: bv32)
    ensures Or(Low(b), Shl7(c)) == Join(b, c)
    ensures Or(Join(b, x), Shl14(c)) == Join(b, Or(x, Shl7(c)))
    ensures Or(Join(b, x), Shl21(c)) == Join(b, Or(x, Shl14(c)))
    ensures Or(Join(b, x), Shl28(c)) == Join(b, Or(x, Shl21(c)))
  {
    hide Low, Or, Shl7, Shl14, Shl21, Shl28;
    ShlOfShl(c);
    ShlOfOr(x, Shl7(c)); ShlOfOr(x, Shl14(c)); ShlOfOr(x, Shl21(c));
    OrIsAssociative(Low(b), Shl7(x), Shl14(c));
    OrIsAssociative(Low(b), Shl7(x), Shl21(c));
    OrIsAssociative(Low(b), Shl7(x), Shl28(c));
  }

  lemma OrsAreJoins(b0: Byte, b1: Byte, b2: Byte, b3: Byte, c: bv32)
    ensures Or(Low(b0), Shl7(c)) == Join(b0, c)
    ensures Or(Or(Low(b0), Shl7(Low(b1))), Shl14(c)) == Join(b0, Join(b1, c))
    ensures Or(Or(Or(Low(b0), Shl7(Low(b1))), Shl14(Low(b2))), Shl21(c)) == Join(b0, Join(b1, Join(b2, c)))
    ensures Or(Or(Or(Or(Low(b0), Shl7(Low(b1))), Shl14(Low(b2))), Shl21(Low(b3))), Shl28(c)) ==
            Join(b0, Join(b1, Join(b2, Join(b3, c))))
  {
    hide Low, Join, Or, Shl7, Shl14, Shl21, Shl28;
    OrOfJoin(b0, Low(b1), Low(b1));
    OrOfJoin(b0, Low(b1), c); OrOfJoin(b0, Low(b1), Low(b2));
    OrOfJoin(b1, Low(b2), c); OrOfJoin(b1, Low(b2), Low(b2));
    OrOfJoin(b0, Join(b1, Low(b2)), c); OrOfJoin(b0, Join(b1, Low(b2)), Low(b3));
    OrOfJoin(b1, Low(b2), Low(b3));
    OrOfJoin(b2, Low(b3), c); OrOfJoin(b2, Low(b3), Low(b3));
    OrOfJoin(b0, Join(b1, Join(b2, Low(b3))), c);
    OrOfJoin(b1, Join(b2, Low(b3)), c);
    OrOfJoin(b3, c, c);
  }

  lemma LowOfShort(b: Byte)
    ensures b < 128 ==> Low(b) == b as bv32
    ensures b < 16 ==> b < 128
  {}

  // One step of the recursive reading.
  lemma ParseStep(s: seq<Byte>, i: nat)
    requires i <= 4
    ensures s == [] ==> Parse(s, i) == Rejected
    ensures s != [] && s[0] < 128 && i < 4 ==> Parse(s, i) == Parsed(Low(s[0]), 1)
    ensures s != [] && s[0] < 16 ==> Parse(s, i) == Parsed(Low(s[0]), 1)
    ensures s != [] && s[0] >= 128 && i < 4 ==>
              Parse(s, i) == match Parse(s[1..], i + 1)
                             case Rejected => Rejected
                             case Parsed(rest, n) => Parsed(Join(s[0], rest), n + 1)
    ensures s != [] && s[0] >= 16 && i == 4 ==> Parse(s, i) == Rejected
  {
    hide Low, Join;
    if s != [] { LowOfShort(s[0]); }
  }

  // `s` holds the bytes from `ptr` up to `limit`, so every index is a checked read below it.
  method Parse32WithLimit(s: seq<Byte>) returns (r: Result)
    ensures r == Parse(s, 0)
  {
    hide Low, Or, Shl7, Shl14, Shl21, Shl28, Join, Parse;
    var ptr := 0;
    ParseStep(s, 0);
    if ptr >= |s| { return Rejected; }
    var b := s[ptr]; ptr := ptr + 1;
    var result := Low(b);
    if b < 128 { return Parsed(result, ptr); }

    ParseStep(s[1..], 1);
    if ptr >= |s| { return Rejected; }
    b := s[ptr]; ptr := ptr + 1;
    result := Or(result, Shl7(Low(b)));
    OrsAreJoins(s[0], b, b, b, Low(b));
    if b < 128 { return Parsed(result, ptr); }

    ParseStep(s[2..], 2);
    assert s[1..][1..] == s[2..];
    if ptr >= |s| { return Rejected; }
    b := s[ptr]; ptr := ptr + 1;
    result := Or(result, Shl14(Low(b)));
    OrsAreJoins(s[0], s[1], b, b, Low(b));
    if b < 128 { return Parsed(result, ptr); }

    ParseStep(s[3..], 3);
    assert s[2..][1..] == s[3..];
    if ptr >= |s| { return Rejected; }
    b := s[ptr]; ptr := ptr + 1;
    result := Or(result, Shl21(Low(b)));
    OrsAreJoins(s[0], s[1], s[2], b, Low(b));
    if b < 128 { return Parsed(result, ptr); }

    ParseStep(s[4..], 4);
    assert s[3..][1..] == s[4..];
    if ptr >= |s| { return Rejected; }
    b := s[ptr]; ptr := ptr + 1;
    result := Or(result, Shl28(Low(b)));
    OrsAreJoins(s[0], s[1], s[2], s[3], Low(b));
    if b < 16 { return Parsed(result, ptr); }
    return Rejected;
  }

  // ---------- what the bytes mean as a number ----------

  // The low seven bits of each byte are the digits to base 128, the lowest first.
  function Base128(s: seq<Byte>): bv32 {
    if s == [] then 0 else Plus(Digit(s[0]), Times128(Base128(s[1..])))
  }

  function Digit(b: Byte): bv32 {
    b as bv32 & 0x7F
  }

  function Plus(x: bv32, y: bv32): bv32 {
    x + y
  }

  function Times128(x: bv32): bv32 {
    128 * x
  }

  predicate IsLast(b: Byte) {
    b < 128
  }

  // Exactly the last byte is below 128.
  predicate EndsOnce(s: seq<Byte>) {
    s != [] && forall i | 0 <= i < |s| :: IsLast(s[i]) <==> i == |s| - 1
  }

  lemma LastDigit(v: bv32)
    requires v < 128
    ensures Final(v) < 128 && Digit(Final(v)) == v
  {}

  lemma MoreDigit(v: bv32)
    ensures More(v) >= 128 && Digit(More(v)) == v & 0x7F
  {}

  lemma DigitsJoin(v: bv32)
    ensures (v & 0x7F) + 128 * (v >> 7) == v
  {}

  lemma NothingMore(x: bv32)
    ensures x + 128 * 0 == x
  {}

  lemma SevenBits(v: bv32)
    ensures Under(v, 0x80) ==> IsLast(Final(v)) && Plus(Digit(Final(v)), Times128(0)) == v
    ensures !IsLast(More(v)) && Plus(Digit(More(v)), Times128(DropSeven(v))) == v
  {
    if Under(v, 0x80) { LastDigit(v); }
    MoreDigit(v);
    DigitsJoin(v);
    NothingMore(v);
    hide Final, More, Digit;
  }

  lemma EndsOnceStep(b: Byte, rest: seq<Byte>)
    ensures IsLast(b) ==> EndsOnce([b])
    ensures !IsLast(b) && EndsOnce(rest) ==> EndsOnce([b] + rest)
  {
    hide IsLast;
  }

  lemma Base128Step(b: Byte, rest: seq<Byte>)
    ensures Base128([b] + rest) == Plus(Digit(b), Times128(Base128(rest)))
  {
    hide Digit, Times128, Plus;
    assert ([b] + rest)[1..] == rest;
  }

  // The encoding of a value is its digits to base 128; all but the last are marked by the high bit.
  lemma {:induction false} EncodingIsBase128(v: bv32)
    ensures Base128(Encoding(v)) == v && EndsOnce(Encoding(v))
    decreases |Encoding(v)|
  {
    assert Base128([]) == 0;
    hide Final, More, DropSeven, Digit, Times128, Plus, Encoding, Base128, Under, EndsOnce, IsLast;
    SevenBits(v);
    EncodingStep(v);
    if Under(v, 0x80) {
      Base128Step(Final(v), []);
      EndsOnceStep(Final(v), []);
      assert [Final(v)] + [] == [Final(v)];
    } else {
      EncodingIsBase128(DropSeven(v));
      Base128Step(More(v), Encoding(DropSeven(v)));
      EndsOnceStep(More(v), Encoding(DropSeven(v)));
    }
  }
}
