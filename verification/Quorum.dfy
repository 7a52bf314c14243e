// Majorities of a finite set of replicas.
module Quorum {

  function Ids(n: nat): (r: set<nat>)
    ensures forall i: nat :: i in r <==> i < n
    ensures |r| == n
  {
    if n == 0 then {} else Ids(n - 1) + {n - 1}
  }

  function MajorityOf(n: nat): nat {
    n / 2 + 1
  }

  ghost predicate IsMajority(q: set<nat>, n: nat) {
    q <= Ids(n) && |q| >= MajorityOf(n)
  }

  lemma {:induction false} SubsetCount<T>(a: set<T>, b: set<T>)
    requires a <= b
    ensures |a| <= |b|
  {
    assert b == a + (b - a);
  }

  // Two majorities share a member.
  lemma Overlap(a: set<nat>, b: set<nat>, n: nat) returns (x: nat)
    requires IsMajority(a, n) && IsMajority(b, n)
    ensures x in a && x in b
  {
    if a * b == {} {
      SubsetCount(a + b, Ids(n));
      assert false;
    }
    x :| x in a * b;
  }
}
