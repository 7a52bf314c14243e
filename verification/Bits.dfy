// Bit and byte facts about machine words: the portable bit scans, and words packed from bytes.
module Bits {

  type Byte = bv8

  // ---------- bit scans ----------

  // Bit `k` is set and no lower bit is.
  predicate IsLowest32(n: bv32, k: bv32) {
    k < 32 && (n >> k) & 1 == 1 && n & ((1 << k) - 1) == 0
  }

  predicate IsLowest64(n: bv64, k: bv64) {
    k < 64 && (n >> k) & 1 == 1 && n & ((1 << k) - 1) == 0
  }

  // Bit `k` is set and no higher bit is.
  predicate IsHighest32(n: bv32, k: bv32) {
    k < 32 && n >> k == 1
  }

  // ---------- the scan for the lowest bit ----------

  // The two variables of a scan: what is left of the word, and the position reached (rc or log).
  datatype Scan = Scan(rest: bv32, at: bv32)

  function LeftStep(s: Scan, shift: bv32): Scan
    requires shift <= 16
  {
    if s.rest << shift != 0 then Scan(s.rest << shift, s.at - shift) else s
  }

  // The steps 16, 8, 4, 2, 1 from `shift` on.
  function LeftSteps(s: Scan, shift: bv32): Scan
    requires shift <= 16
    decreases shift
  {
    if shift == 0 then s else LeftSteps(LeftStep(s, shift), shift >> 1)
  }

  lemma LeftStepsFind(n: bv32)
    requires n != 0
    ensures IsLowest32(n, LeftSteps(Scan(n, 31), 16).at)
  {
    var a := LeftStep(Scan(n, 31), 16);
    var b := LeftStep(a, 8);
    var c := LeftStep(b, 4);
    var d := LeftStep(c, 2);
    var e := LeftStep(d, 1);
    assert LeftSteps(c, 2) == LeftSteps(d, 1) == LeftSteps(e, 0) == e;
    assert LeftSteps(Scan(n, 31), 16) == LeftSteps(a, 8) == LeftSteps(b, 4) == LeftSteps(c, 2);
  }

  // The portable loop: shift left by 16, 8, 4, 2, 1 as long as something is left.
  method FindLSBSetNonZero(n: bv32) returns (rc: bv32)
    requires n != 0
    ensures IsLowest32(n, rc)
  {
    var s := Scan(n, 31);
    var shift: bv32 := 16;
    while shift != 0
      invariant shift <= 16
      invariant LeftSteps(s, shift) == LeftSteps(Scan(n, 31), 16)
      decreases shift
    {
      s := LeftStep(s, shift);
      shift := shift >> 1;
    }
    LeftStepsFind(n);
    rc := s.at;
  }

  lemma LowestInLowHalf(n: bv64, k: bv32)
    requires IsLowest32((n & 0xFFFF_FFFF) as bv32, k)
    ensures IsLowest64(n, k as bv64)
  {}

  lemma LowestInHighHalf(n: bv64, k: bv32)
    requires n & 0xFFFF_FFFF == 0 && IsLowest32(((n >> 32) & 0xFFFF_FFFF) as bv32, k)
    ensures IsLowest64(n, 32 + k as bv64)
  {}

  method FindLSBSetNonZero64(n: bv64) returns (rc: bv64)
    requires n != 0
    ensures IsLowest64(n, rc)
  {
    var bottombits: bv32 := (n & 0xFFFF_FFFF) as bv32;
    if bottombits == 0 {
      var topbits := ((n >> 32) & 0xFFFF_FFFF) as bv32;
      var top := FindLSBSetNonZero(topbits);
      LowestInHighHalf(n, top);
      rc := 32 + top as bv64;
    } else {
      var low := FindLSBSetNonZero(bottombits);
      LowestInLowHalf(n, low);
      rc := low as bv64;
    }
  }

  // ---------- the scan for the highest bit ----------

  function RightStep(s: Scan, shift: bv32): Scan
    requires shift <= 16
  {
    if s.rest >> shift != 0 then Scan(s.rest >> shift, s.at + shift) else s
  }

  function RightSteps(s: Scan, shift: bv32): Scan
    requires shift <= 16
    decreases shift
  {
    if shift == 0 then s else RightSteps(RightStep(s, shift), shift >> 1)
  }

  lemma RightStepsFind(n: bv32)
    requires n != 0
    ensures IsHighest32(n, RightSteps(Scan(n, 0), 16).at)
  {
    var a := RightStep(Scan(n, 0), 16);
    var b := RightStep(a, 8);
    var c := RightStep(b, 4);
    var d := RightStep(c, 2);
    var e := RightStep(d, 1);
    assert RightSteps(c, 2) == RightSteps(d, 1) == RightSteps(e, 0) == e;
    assert RightSteps(Scan(n, 0), 16) == RightSteps(a, 8) == RightSteps(b, 4) == RightSteps(c, 2);
  }

  // The portable loop: shift right by 16, 8, 4, 2, 1 as long as something is left.
  method Log2FloorNonZero(n: bv32) returns (log: bv32)
    requires n != 0
    ensures IsHighest32(n, log)
  {
    var s := Scan(n, 0);
    var shift: bv32 := 16;
    while shift != 0
      invariant shift <= 16
      invariant RightSteps(s, shift) == RightSteps(Scan(n, 0), 16)
      decreases shift
    {
      s := RightStep(s, shift);
      shift := shift >> 1;
    }
    RightStepsFind(n);
    log := s.at;
  }
}
