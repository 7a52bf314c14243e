// How long `handle_put` has waited, in the double precision it counts in.  All values are whole
// numbers of 2^-63 seconds.
module Ticks {

  // The doubles 0.0005 and 50 / 1000.
  const TICK := 4611686018427388
  const LIMIT := 461168601842738816

  // They are the nearest ones: neighbours of the first are 1 apart, those of the second 64.
  lemma NearestDoubles()
    ensures -1000 <= 2000 * TICK - 0x8000_0000_0000_0000 <= 1000
    ensures LIMIT % 64 == 0 && -640 <= 20 * LIMIT - 0x8000_0000_0000_0000 <= 640
  {}

  // The distance of neighbouring doubles around `x`: a double has 53 significant bits.
  function Spacing(x: nat): nat {
    if x < 0x20_0000_0000_0000 then 1
    else if x < 0x40_0000_0000_0000 then 2
    else if x < 0x80_0000_0000_0000 then 4
    else if x < 0x100_0000_0000_0000 then 8
    else if x < 0x200_0000_0000_0000 then 16
    else if x < 0x400_0000_0000_0000 then 32
    else 64
  }

  // The nearest double; of two equally near ones the one with an even last bit.
  function Rounded(x: nat): nat {
    var u := Spacing(x);
    var low, rest := x / u, x % u;
    if 2 * rest < u || (2 * rest == u && low % 2 == 0) then low * u else (low + 1) * u
  }

  // After `k` additions.
  function Waited(k: nat): nat {
    if k == 0 then 0 else Rounded(Waited(k - 1) + TICK)
  }

  // The sums written out; each range is one pattern of rounding.
  function Sum(k: nat): nat {
    if k <= 8 then k * TICK
    else if k <= 62 then 8 * TICK + (k - 8) * (TICK + 4)
    else 8 * TICK + 54 * (TICK + 4) + (TICK - 28) + (k - 63) * (TICK + 4)
  }

  lemma RoundsDownByNothing(x: nat)
    requires x % Spacing(x) == 0
    ensures Rounded(x) == x
  {}

  lemma RoundsFrom28(x: nat, q: nat)
    requires x == 64 * q + 28
    ensures Spacing(x) in {8, 16, 32} ==> Rounded(x) == x + 4
    ensures Spacing(x) == 64 ==> Rounded(x) == x - 28
  {
    assert x / 8 == 8 * q + 3 && x / 16 == 4 * q + 1 && x / 32 == 2 * q && x / 64 == q;
  }

  lemma RoundsFrom60(x: nat, q: nat)
    requires x == 64 * q + 60 && Spacing(x) == 64
    ensures Rounded(x) == x + 4
  {
    assert x / 64 == q;
  }

  lemma EightExactSums(k: nat)
    requires 1 <= k <= 8
    ensures Rounded(k * TICK) == k * TICK
  {
    var x := k * TICK;
    assert Spacing(x) == if k == 1 then 1 else if k <= 3 then 2 else if k <= 7 then 4 else 8;
    assert x == 4 * (k * 1152921504606847);
    assert k == 8 ==> x == 8 * 4611686018427388;
    assert x % Spacing(x) == 0;
    RoundsDownByNothing(x);
  }

  lemma FirstSums(k: nat)
    requires 1 <= k <= 8
    ensures Rounded(Sum(k - 1) + TICK) == Sum(k)
  {
    EightExactSums(k);
    hide Rounded;
    assert Sum(k - 1) + TICK == k * TICK;
  }

  // A sixty-fourth of the usual step.
  const STEP := 72057594037928

  lemma LaterSums(k: nat)
    requires 9 <= k <= 100
    ensures Rounded(Sum(k - 1) + TICK) == Sum(k)
  {
    var x := Sum(k - 1) + TICK;
    hide Rounded;
    if k <= 63 {
      assert x == 64 * (648518346341351 + (k - 9) * STEP) + 28;
      assert Spacing(x) == if k <= 15 then 8 else if k <= 31 then 16 else if k <= 62 then 32 else 64;
      RoundsFrom28(x, 648518346341351 + (k - 9) * STEP);
    } else {
      assert x == 64 * (4611686018427390 + (k - 64) * STEP) + 60;
      assert Spacing(x) == 64;
      RoundsFrom60(x, 4611686018427390 + (k - 64) * STEP);
    }
  }

  lemma {:induction false} WaitedIsSum(k: nat)
    requires k <= 100
    ensures Waited(k) == Sum(k)
  {
    if k > 0 {
      WaitedIsSum(k - 1);
      hide Rounded, Sum;
      if k <= 8 { FirstSums(k); } else { LaterSums(k); }
    }
  }

  // The hundredth addition is the first that goes over the limit.
  lemma OverTheLimit(k: nat)
    requires k <= 100
    ensures Waited(k) > LIMIT <==> k == 100
  {
    WaitedIsSum(k);
  }

  lemma StartsAtZero()
    ensures Waited(0) == 0
  {}

  // `waited += 0.0005` and the test that follows it, the time `k` waits were done.
  method WaitOnce(ghost k: nat, waited: nat) returns (r: nat, over: bool)
    requires k <= 99 && waited == Waited(k)
    ensures r == Waited(k + 1)
    ensures over <==> k == 99
  {
    OverTheLimit(k + 1);
    r := Rounded(waited + TICK);
    over := r > LIMIT;
  }
}
