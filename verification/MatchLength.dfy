// Snappy's match finders.  `a` and `b` are the bytes from s1 and from s2 up to s2_limit, so
// every index is a checked read below the limit.
module MatchLength {
  import opened Wrappers
  import opened Bits

  // ---------- words packed from bytes, least significant first ----------

  datatype Word = Word(b0: Byte, b1: Byte, b2: Byte, b3: Byte, b4: Byte, b5: Byte, b6: Byte, b7: Byte)

  datatype Half = Half(b0: Byte, b1: Byte, b2: Byte, b3: Byte)

  function Pack5(b0: Byte, b1: Byte, b2: Byte, b3: Byte, b4: Byte): bv64 {
    b0 as bv64 | (b1 as bv64 << 8) | (b2 as bv64 << 16) | (b3 as bv64 << 24) | (b4 as bv64 << 32)
  }

  function WithTop(x: bv64, b5: Byte, b6: Byte, b7: Byte): bv64 {
    x | (b5 as bv64 << 40) | (b6 as bv64 << 48) | (b7 as bv64 << 56)
  }

  function Pack(b0: Byte, b1: Byte, b2: Byte, b3: Byte, b4: Byte, b5: Byte, b6: Byte, b7: Byte): bv64 {
    WithTop(Pack5(b0, b1, b2, b3, b4), b5, b6, b7)
  }

  function Pack8(w: Word): bv64 {
    Pack(w.b0, w.b1, w.b2, w.b3, w.b4, w.b5, w.b6, w.b7)
  }

  function Pack4(h: Half): bv32 {
    h.b0 as bv32 | (h.b1 as bv32 << 8) | (h.b2 as bv32 << 16) | (h.b3 as bv32 << 24)
  }

  function WordAt(s: seq<Byte>, i: nat): Word
    requires i + 8 <= |s|
  {
    Word(s[i], s[i + 1], s[i + 2], s[i + 3], s[i + 4], s[i + 5], s[i + 6], s[i + 7])
  }

  function HalfAt(s: seq<Byte>, i: nat): Half
    requires i + 4 <= |s|
  {
    Half(s[i], s[i + 1], s[i + 2], s[i + 3])
  }

  // A load in the byte order of the machine.
  function Load32(h: Half, littleEndian: bool): bv32 {
    Pack4(if littleEndian then h else Half(h.b3, h.b2, h.b1, h.b0))
  }

  function Load64(w: Word, littleEndian: bool): bv64 {
    Pack8(if littleEndian then w else Word(w.b7, w.b6, w.b5, w.b4, w.b3, w.b2, w.b1, w.b0))
  }

  lemma Pack8IsInjective(x: Word, y: Word)
    ensures Pack8(x) == Pack8(y) <==> x == y
  {}

  lemma Pack4IsInjective(x: Half, y: Half)
    ensures Pack4(x) == Pack4(y) <==> x == y
  {}

  lemma Load64IsInjective(x: Word, y: Word, littleEndian: bool)
    ensures Load64(x, littleEndian) == Load64(y, littleEndian) <==> x == y
  {
    hide Pack8;
    Pack8IsInjective(x, y);
    Pack8IsInjective(Word(x.b7, x.b6, x.b5, x.b4, x.b3, x.b2, x.b1, x.b0),
                     Word(y.b7, y.b6, y.b5, y.b4, y.b3, y.b2, y.b1, y.b0));
  }

  lemma Load32IsInjective(x: Half, y: Half, littleEndian: bool)
    ensures Load32(x, littleEndian) == Load32(y, littleEndian) <==> x == y
  {
    hide Pack4;
    Pack4IsInjective(x, y);
    Pack4IsInjective(Half(x.b3, x.b2, x.b1, x.b0), Half(y.b3, y.b2, y.b1, y.b0));
  }

  // The word operations of the finders, by name: the proofs below hide their bits.
  function Xor(x: bv64, y: bv64): bv64 {
    x ^ y
  }

  function ShiftRight(x: bv64, j: bv64): bv64
    requires j < 64
  {
    x >> j
  }

  predicate LowHalfIsZero(x: bv64) {
    x & 0xFFFF_FFFF == 0
  }

  function Low5(x: bv64): bv64 {
    x & 0xFF_FFFF_FFFF
  }

  // ---------- the lowest set bit of a difference ----------

  function Xor8(x: Word, y: Word): Word {
    Word(x.b0 ^ y.b0, x.b1 ^ y.b1, x.b2 ^ y.b2, x.b3 ^ y.b3, x.b4 ^ y.b4, x.b5 ^ y.b5, x.b6 ^ y.b6, x.b7 ^ y.b7)
  }

  lemma XorOfPack8(x: Word, y: Word)
    ensures Xor(Pack8(x), Pack8(y)) == Pack8(Xor8(x, y))
  {}

  // The lowest set bit of a word is below position 8m just when one of its low m bytes is set.
  lemma LowestBitBelow(x: bv64, k: bv64)
    requires IsLowest64(x, k)
    ensures k < 8 <==> x & 0xFF != 0
    ensures k < 16 <==> x & 0xFFFF != 0
    ensures k < 24 <==> x & 0xFF_FFFF != 0
    ensures k < 32 <==> x & 0xFFFF_FFFF != 0
    ensures k < 40 <==> x & 0xFF_FFFF_FFFF != 0
    ensures k < 48 <==> x & 0xFFFF_FFFF_FFFF != 0
    ensures k < 56 <==> x & 0xFF_FFFF_FFFF_FFFF != 0
    ensures x != 0
  {}

  function ByteOf(x: bv64, shift: bv64): bv64
    requires shift < 64
  {
    (x >> shift) & 0xFF
  }

  lemma BytesOfPack5(b0: Byte, b1: Byte, b2: Byte, b3: Byte, b4: Byte)
    ensures Low5(Pack5(b0, b1, b2, b3, b4)) == Pack5(b0, b1, b2, b3, b4)
    ensures ByteOf(Pack5(b0, b1, b2, b3, b4), 0) == 0 <==> b0 == 0
    ensures ByteOf(Pack5(b0, b1, b2, b3, b4), 8) == 0 <==> b1 == 0
    ensures ByteOf(Pack5(b0, b1, b2, b3, b4), 16) == 0 <==> b2 == 0
    ensures ByteOf(Pack5(b0, b1, b2, b3, b4), 24) == 0 <==> b3 == 0
    ensures ByteOf(Pack5(b0, b1, b2, b3, b4), 32) == 0 <==> b4 == 0
  {}

  lemma BytesOfWithTop(x: bv64, b5: Byte, b6: Byte, b7: Byte)
    requires Low5(x) == x
    ensures ByteOf(WithTop(x, b5, b6, b7), 0) == ByteOf(x, 0)
    ensures ByteOf(WithTop(x, b5, b6, b7), 8) == ByteOf(x, 8)
    ensures ByteOf(WithTop(x, b5, b6, b7), 16) == ByteOf(x, 16)
    ensures ByteOf(WithTop(x, b5, b6, b7), 24) == ByteOf(x, 24)
    ensures ByteOf(WithTop(x, b5, b6, b7), 32) == ByteOf(x, 32)
    ensures ByteOf(WithTop(x, b5, b6, b7), 40) == 0 <==> b5 == 0
    ensures ByteOf(WithTop(x, b5, b6, b7), 48) == 0 <==> b6 == 0
    ensures ByteOf(WithTop(x, b5, b6, b7), 56) == 0 <==> b7 == 0
  {}

  lemma BytesOfPack(b0: Byte, b1: Byte, b2: Byte, b3: Byte, b4: Byte, b5: Byte, b6: Byte, b7: Byte)
    ensures ByteOf(Pack(b0, b1, b2, b3, b4, b5, b6, b7), 0) == 0 <==> b0 == 0
    ensures ByteOf(Pack(b0, b1, b2, b3, b4, b5, b6, b7), 8) == 0 <==> b1 == 0
    ensures ByteOf(Pack(b0, b1, b2, b3, b4, b5, b6, b7), 16) == 0 <==> b2 == 0
    ensures ByteOf(Pack(b0, b1, b2, b3, b4, b5, b6, b7), 24) == 0 <==> b3 == 0
    ensures ByteOf(Pack(b0, b1, b2, b3, b4, b5, b6, b7), 32) == 0 <==> b4 == 0
    ensures ByteOf(Pack(b0, b1, b2, b3, b4, b5, b6, b7), 40) == 0 <==> b5 == 0
    ensures ByteOf(Pack(b0, b1, b2, b3, b4, b5, b6, b7), 48) == 0 <==> b6 == 0
    ensures ByteOf(Pack(b0, b1, b2, b3, b4, b5, b6, b7), 56) == 0 <==> b7 == 0
  {
    hide Low5, Pack5, WithTop, ByteOf;
    BytesOfPack5(b0, b1, b2, b3, b4);
    BytesOfWithTop(Pack5(b0, b1, b2, b3, b4), b5, b6, b7);
  }

  lemma LowBytes(x: bv64)
    ensures x & 0xFF == 0 <==> ByteOf(x, 0) == 0
    ensures x & 0xFFFF == 0 <==> x & 0xFF == 0 && ByteOf(x, 8) == 0
    ensures x & 0xFF_FFFF == 0 <==> x & 0xFFFF == 0 && ByteOf(x, 16) == 0
    ensures x & 0xFFFF_FFFF == 0 <==> x & 0xFF_FFFF == 0 && ByteOf(x, 24) == 0
    ensures x & 0xFF_FFFF_FFFF == 0 <==> x & 0xFFFF_FFFF == 0 && ByteOf(x, 32) == 0
    ensures x & 0xFFFF_FFFF_FFFF == 0 <==> x & 0xFF_FFFF_FFFF == 0 && ByteOf(x, 40) == 0
    ensures x & 0xFF_FFFF_FFFF_FFFF == 0 <==> x & 0xFFFF_FFFF_FFFF == 0 && ByteOf(x, 48) == 0
    ensures x == 0 <==> x & 0xFF_FFFF_FFFF_FFFF == 0 && ByteOf(x, 56) == 0
  {}

  // The number of the byte that holds bit `k`.
  function ByteIndex(k: bv64): nat {
    if k < 8 then 0 else if k < 16 then 1 else if k < 24 then 2 else if k < 32 then 3
    else if k < 40 then 4 else if k < 48 then 5 else if k < 56 then 6 else 7
  }

  // The first `m` bytes agree and byte `m` differs.
  predicate DifferFirstAt(x: Word, y: Word, m: nat) {
    && m < 8
    && (m == 0 <==> x.b0 != y.b0)
    && (m <= 1 <==> x.b0 != y.b0 || x.b1 != y.b1)
    && (m <= 2 <==> x.b0 != y.b0 || x.b1 != y.b1 || x.b2 != y.b2)
    && (m <= 3 <==> x.b0 != y.b0 || x.b1 != y.b1 || x.b2 != y.b2 || x.b3 != y.b3)
    && (m > 3 ==> (m == 4 <==> x.b4 != y.b4))
    && (m > 3 ==> (m <= 5 <==> x.b4 != y.b4 || x.b5 != y.b5))
    && (m > 3 ==> (m <= 6 <==> x.b4 != y.b4 || x.b5 != y.b5 || x.b6 != y.b6))
    && (m == 7 ==> x.b7 != y.b7)
  }

  lemma XorIsZero(x: Byte, y: Byte)
    ensures x ^ y == 0 <==> x == y
  {}

  lemma XorNonZero(x: bv64, y: bv64)
    ensures Xor(x, y) == 0 <==> x == y
  {}

  lemma FirstDifference(x: Word, y: Word, k: bv64)
    requires IsLowest64(Xor(Pack8(x), Pack8(y)), k)
    ensures DifferFirstAt(x, y, ByteIndex(k))
  {
    hide IsLowest64, Pack, ByteOf, Xor;
    var d := Xor8(x, y);
    XorOfPack8(x, y);
    LowestBitBelow(Pack8(d), k);
    LowBytes(Pack8(d));
    BytesOfPack(d.b0, d.b1, d.b2, d.b3, d.b4, d.b5, d.b6, d.b7);
    XorIsZero(x.b0, y.b0); XorIsZero(x.b1, y.b1); XorIsZero(x.b2, y.b2); XorIsZero(x.b3, y.b3);
    XorIsZero(x.b4, y.b4); XorIsZero(x.b5, y.b5); XorIsZero(x.b6, y.b6); XorIsZero(x.b7, y.b7);
  }

  // ---------- the five bytes after the difference ----------

  // Five bytes of a word, from byte `r` on.
  function FiveFrom(w: Word, r: nat): bv64 {
    match r {
      case 0 => Pack5(w.b0, w.b1, w.b2, w.b3, w.b4)
      case 1 => Pack5(w.b1, w.b2, w.b3, w.b4, w.b5)
      case 2 => Pack5(w.b2, w.b3, w.b4, w.b5, w.b6)
      case _ => Pack5(w.b3, w.b4, w.b5, w.b6, w.b7)
    }
  }

  lemma LowFiveStay(x: bv64, b5: Byte, b6: Byte, b7: Byte)
    requires Low5(x) == x
    ensures Low5(ShiftRight(WithTop(x, b5, b6, b7), 0)) == x
  {}

  lemma FiveBytes0(b0: Byte, b1: Byte, b2: Byte, b3: Byte, b4: Byte, b5: Byte, b6: Byte, b7: Byte)
    ensures Low5(ShiftRight(Pack(b0, b1, b2, b3, b4, b5, b6, b7), 0)) == Pack5(b0, b1, b2, b3, b4)
  {
    hide Pack5, WithTop, Low5, ShiftRight, ByteOf;
    BytesOfPack5(b0, b1, b2, b3, b4);
    LowFiveStay(Pack5(b0, b1, b2, b3, b4), b5, b6, b7);
  }

  lemma FiveBytes1(b0: Byte, b1: Byte, b2: Byte, b3: Byte, b4: Byte, b5: Byte, b6: Byte, b7: Byte)
    ensures Low5(ShiftRight(Pack(b0, b1, b2, b3, b4, b5, b6, b7), 8)) == Pack5(b1, b2, b3, b4, b5)
  {}

  lemma FiveBytes2(b0: Byte, b1: Byte, b2: Byte, b3: Byte, b4: Byte, b5: Byte, b6: Byte, b7: Byte)
    ensures Low5(ShiftRight(Pack(b0, b1, b2, b3, b4, b5, b6, b7), 16)) == Pack5(b2, b3, b4, b5, b6)
  {}

  lemma FiveBytes3(b0: Byte, b1: Byte, b2: Byte, b3: Byte, b4: Byte, b5: Byte, b6: Byte, b7: Byte)
    ensures Low5(ShiftRight(Pack(b0, b1, b2, b3, b4, b5, b6, b7), 24)) == Pack5(b3, b4, b5, b6, b7)
  {}

  function ByteShift(r: nat): bv64 {
    match r { case 0 => 0 case 1 => 8 case 2 => 16 case _ => 24 }
  }

  lemma ShiftOfIndex(k: bv64)
    requires k < 64
    ensures k & 24 == ByteShift(ByteIndex(k) % 4)
    ensures (k >> 3) as nat == ByteIndex(k)
  {}

  lemma ShiftedWord(w: Word, r: nat)
    requires r < 4
    ensures Low5(ShiftRight(Pack8(w), ByteShift(r))) == FiveFrom(w, r)
  {
    hide Pack, Pack5, Low5, ShiftRight;
    match r {
      case 0 => FiveBytes0(w.b0, w.b1, w.b2, w.b3, w.b4, w.b5, w.b6, w.b7);
      case 1 => FiveBytes1(w.b0, w.b1, w.b2, w.b3, w.b4, w.b5, w.b6, w.b7);
      case 2 => FiveBytes2(w.b0, w.b1, w.b2, w.b3, w.b4, w.b5, w.b6, w.b7);
      case 3 => FiveBytes3(w.b0, w.b1, w.b2, w.b3, w.b4, w.b5, w.b6, w.b7);
    }
  }

  lemma LowHalf(x: bv64, k: bv64)
    requires IsLowest64(x, k)
    ensures LowHalfIsZero(x) <==> ByteIndex(k) >= 4
    ensures k < 64
  {}

  // What the word loops do with two words that differ; `after` is loaded four bytes behind `y`.
  method MatchedBytes(x: Word, y: Word, after: Word) returns (m: nat, data: bv64)
    requires x != y
    ensures DifferFirstAt(x, y, m)
    ensures Low5(data) == FiveFrom(if m < 4 then y else after, m % 4)
  {
    hide IsLowest64, Pack8, FiveFrom, ByteShift, Xor, LowHalfIsZero, Low5, ShiftRight, DifferFirstAt;
    Pack8IsInjective(x, y);
    var xorval := Xor(Pack8(x), Pack8(y));
    XorNonZero(Pack8(x), Pack8(y));
    var shift := FindLSBSetNonZero64(xorval);
    FirstDifference(x, y, shift);
    LowHalf(xorval, shift);
    ShiftOfIndex(shift);
    m := (shift >> 3) as nat;
    ShiftedWord(if m < 4 then y else after, m % 4);
    var a2 := if LowHalfIsZero(xorval) then Pack8(after) else Pack8(y);
    data := ShiftRight(a2, shift & 24);
  }

  // The same difference found in halves of words.
  predicate HalvesDifferFirstAt(x: Half, y: Half, m: nat) {
    && m < 4
    && (m == 0 <==> x.b0 != y.b0)
    && (m <= 1 <==> x.b0 != y.b0 || x.b1 != y.b1)
    && (m <= 2 <==> x.b0 != y.b0 || x.b1 != y.b1 || x.b2 != y.b2)
    && (m == 3 ==> x.b3 != y.b3)
  }

  method MatchedBytes32(x: Half, y: Half) returns (m: nat)
    requires x != y
    ensures HalvesDifferFirstAt(x, y, m)
  {
    hide IsLowest32, Pack4, Xor32;
    Pack4IsInjective(x, y);
    Xor32NonZero(Pack4(x), Pack4(y));
    var matchingBits := FindLSBSetNonZero(Xor32(Pack4(x), Pack4(y)));
    FirstDifference32(x, y, matchingBits);
    m := (matchingBits >> 3) as nat;
  }

  function Xor32(x: bv32, y: bv32): bv32 {
    x ^ y
  }

  lemma Xor32NonZero(x: bv32, y: bv32)
    ensures Xor32(x, y) == 0 <==> x == y
  {}

  lemma XorOfPack4(x: Half, y: Half)
    ensures Xor32(Pack4(x), Pack4(y)) == Pack4(Half(x.b0 ^ y.b0, x.b1 ^ y.b1, x.b2 ^ y.b2, x.b3 ^ y.b3))
  {}

  lemma LowestByte4(d: Half, k: bv32)
    requires IsLowest32(Pack4(d), k)
    ensures k < 32
    ensures k < 8 <==> d.b0 != 0
    ensures k < 16 <==> d.b0 != 0 || d.b1 != 0
    ensures k < 24 <==> d.b0 != 0 || d.b1 != 0 || d.b2 != 0
    ensures d.b0 != 0 || d.b1 != 0 || d.b2 != 0 || d.b3 != 0
  {}

  lemma ByteIndex32(k: bv32)
    requires k < 32
    ensures (k >> 3) as nat == if k < 8 then 0 else if k < 16 then 1 else if k < 24 then 2 else 3
  {}

  lemma FirstDifference32(x: Half, y: Half, k: bv32)
    requires IsLowest32(Xor32(Pack4(x), Pack4(y)), k)
    ensures HalvesDifferFirstAt(x, y, (k >> 3) as nat)
  {
    hide IsLowest32, Pack4, Xor32;
    XorOfPack4(x, y);
    LowestByte4(Half(x.b0 ^ y.b0, x.b1 ^ y.b1, x.b2 ^ y.b2, x.b3 ^ y.b3), k);
    ByteIndex32(k);
    XorIsZero(x.b0, y.b0); XorIsZero(x.b1, y.b1); XorIsZero(x.b2, y.b2); XorIsZero(x.b3, y.b3);
  }

  // ---------- the specification ----------

  predicate Agree(a: seq<Byte>, b: seq<Byte>, n: nat)
    requires n <= |a| && n <= |b|
  {
    forall j :: 0 <= j < n ==> a[j] == b[j]
  }

  lemma PrefixesAgree(a: seq<Byte>, b: seq<Byte>, n: nat)
    requires n <= |a| && n <= |b|
    ensures a[..n] == b[..n] <==> Agree(a, b, n)
  {
    if a[..n] == b[..n] {
      assert forall j :: 0 <= j < n ==> a[j] == a[..n][j] && b[j] == b[..n][j];
    }
  }

  // The first `n` bytes agree and the next one, when there is one, differs.
  predicate IsMatch(a: seq<Byte>, b: seq<Byte>, n: nat)
    requires |a| == |b|
  {
    && n <= |b|
    && Agree(a, b, n)
    && (n < |b| ==> a[n] != b[n])
  }

  // Exactly one length is a match: the greatest length of a common prefix.
  lemma MatchIsLongest(a: seq<Byte>, b: seq<Byte>, n: nat)
    requires |a| == |b|
    ensures IsMatch(a, b, n) <==>
            && n <= |b| && a[..n] == b[..n]
            && forall m: nat :: m <= |b| && a[..m] == b[..m] ==> m <= n
  {
    forall m: nat | m <= |b| ensures a[..m] == b[..m] <==> Agree(a, b, m) {
      PrefixesAgree(a, b, m);
    }
    if n < |b| {
      PrefixesAgree(a, b, n + 1);
    }
  }

  // The five bytes from position `n` on.
  function Next5(b: seq<Byte>, n: nat): bv64
    requires n + 5 <= |b|
  {
    Pack5(b[n], b[n + 1], b[n + 2], b[n + 3], b[n + 4])
  }

  // A differing word or half settles the match.
  lemma WordSettles(a: seq<Byte>, b: seq<Byte>, i: nat, m: nat)
    requires |a| == |b| && i + 8 <= |b| && Agree(a, b, i)
    requires DifferFirstAt(WordAt(a, i), WordAt(b, i), m)
    ensures IsMatch(a, b, i + m)
  {}

  lemma HalfSettles(a: seq<Byte>, b: seq<Byte>, i: nat, m: nat)
    requires |a| == |b| && i + 4 <= |b| && Agree(a, b, i)
    requires HalvesDifferFirstAt(HalfAt(a, i), HalfAt(b, i), m)
    ensures IsMatch(a, b, i + m)
  {}

  lemma FiveOfWords(b: seq<Byte>, i: nat, m: nat)
    requires m < 8 && i + 16 <= |b|
    ensures FiveFrom(if m < 4 then WordAt(b, i) else WordAt(b, i + 4), m % 4) == Next5(b, i + m)
  {
    hide Pack5;
  }

  lemma LoadsNextFive(b: seq<Byte>, i: nat)
    requires i + 8 <= |b|
    ensures Low5(Pack8(WordAt(b, i))) == Next5(b, i)
  {
    hide Pack, Pack5, Low5;
    FiveBytes0(b[i], b[i + 1], b[i + 2], b[i + 3], b[i + 4], b[i + 5], b[i + 6], b[i + 7]);
  }

  // ---------- the finders ----------

  // The variant for 64-bit little-endian machines.
  method FindMatchLength(a: seq<Byte>, b: seq<Byte>) returns (matched: nat, isShort: bool, data: Option<bv64>)
    requires |a| == |b|
    ensures IsMatch(a, b, matched)
    ensures isShort <==> matched < 8
    ensures data.Some? <==> matched + 8 <= |b|
    ensures data.Some? ==> Low5(data.value) == Next5(b, matched)
  {
    hide Pack8, Pack5, Low5, DifferFirstAt, FiveFrom;
    matched, data := 0, None;
    var s2 := 0;
    if s2 + 16 <= |b| {
      var a1, a2 := WordAt(a, 0), WordAt(b, s2);
      Pack8IsInjective(a1, a2);
      if Pack8(a1) != Pack8(a2) {
        var matchedBytes, next := MatchedBytes(a1, a2, WordAt(b, s2 + 4));
        WordSettles(a, b, 0, matchedBytes);
        FiveOfWords(b, 0, matchedBytes);
        return matchedBytes, true, Some(next);
      } else {
        matched := 8;
        s2 := s2 + 8;
      }
    }
    while s2 + 16 <= |b|
      invariant s2 == matched <= |b| && Agree(a, b, matched)
      invariant 16 <= |b| ==> 8 <= matched
    {
      var a1, a2 := WordAt(a, matched), WordAt(b, s2);
      Pack8IsInjective(a1, a2);
      if Pack8(a1) == Pack8(a2) {
        s2 := s2 + 8;
        matched := matched + 8;
      } else {
        var matchedBytes, next := MatchedBytes(a1, a2, WordAt(b, s2 + 4));
        WordSettles(a, b, matched, matchedBytes);
        FiveOfWords(b, matched, matchedBytes);
        return matched + matchedBytes, false, Some(next);
      }
    }
    while s2 < |b|
      invariant s2 == matched <= |b| && Agree(a, b, matched)
    {
      if a[matched] == b[s2] {
        s2 := s2 + 1;
        matched := matched + 1;
      } else {
        if s2 + 8 <= |b| {
          LoadsNextFive(b, s2);
          data := Some(Pack8(WordAt(b, s2)));
        }
        return matched, matched < 8, data;
      }
    }
    return matched, matched < 8, data;
  }

  // The variant for every other machine.
  method FindMatchLength32(a: seq<Byte>, b: seq<Byte>, littleEndian: bool)
      returns (matched: nat, isShort: bool, data: Option<bv64>)
    requires |a| == |b|
    ensures IsMatch(a, b, matched)
    ensures isShort <==> matched < 8
    ensures data.Some? <==> matched + 8 <= |b|
    ensures data.Some? ==> Low5(data.value) == Next5(b, matched)
  {
    hide Pack8, Pack5, Low5, Load32, HalvesDifferFirstAt;
    matched, data := 0, None;
    var s2 := 0;
    while s2 + 4 <= |b| && Load32(HalfAt(b, s2), littleEndian) == Load32(HalfAt(a, matched), littleEndian)
      invariant s2 == matched <= |b| && Agree(a, b, matched)
    {
      Load32IsInjective(HalfAt(b, s2), HalfAt(a, matched), littleEndian);
      s2 := s2 + 4;
      matched := matched + 4;
    }
    if littleEndian && s2 + 4 <= |b| {
      Load32IsInjective(HalfAt(b, s2), HalfAt(a, matched), littleEndian);
      var m := MatchedBytes32(HalfAt(a, matched), HalfAt(b, s2));
      HalfSettles(a, b, matched, m);
      matched := matched + m;
      s2 := s2 + m;
    } else {
      while s2 < |b| && a[matched] == b[s2]
        invariant s2 == matched <= |b| && Agree(a, b, matched)
      {
        s2 := s2 + 1;
        matched := matched + 1;
      }
    }
    if s2 + 8 <= |b| {
      LoadsNextFive(b, s2);
      data := Some(Pack8(WordAt(b, s2)));
    }
    isShort := matched < 8;
  }

  method FindMatchLengthPlain(a: seq<Byte>, b: seq<Byte>, littleEndian: bool) returns (matched: nat)
    requires |a| == |b|
    ensures IsMatch(a, b, matched)
  {
    hide Load64, DifferFirstAt, FiveFrom;
    matched := 0;
    var s2 := 0;
    while s2 + 8 <= |b| && Load64(WordAt(b, s2), littleEndian) == Load64(WordAt(a, matched), littleEndian)
      invariant s2 == matched <= |b| && Agree(a, b, matched)
    {
      Load64IsInjective(WordAt(b, s2), WordAt(a, matched), littleEndian);
      s2 := s2 + 8;
      matched := matched + 8;
    }
    if littleEndian && s2 + 8 <= |b| {
      Load64IsInjective(WordAt(b, s2), WordAt(a, matched), littleEndian);
      var m, _ := MatchedBytes(WordAt(a, matched), WordAt(b, s2), WordAt(b, s2));
      WordSettles(a, b, matched, m);
      matched := matched + m;
      s2 := s2 + m;
    } else {
      while s2 < |b| && a[matched] == b[s2]
        invariant s2 == matched <= |b| && Agree(a, b, matched)
      {
        s2 := s2 + 1;
        matched := matched + 1;
      }
    }
  }
}
