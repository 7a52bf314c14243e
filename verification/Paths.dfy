// Slash-separated names as the servers and the client cut them.
module Paths {

  // `find_last_of('/')`; -1 if there is none.
  function LastSlash(p: string): (i: int)
    ensures -1 <= i < |p|
    ensures i >= 0 ==> p[i] == '/'
    ensures forall k | i < k < |p| :: p[k] != '/'
  {
    if p == [] then -1
    else if p[|p| - 1] == '/' then |p| - 1
    else LastSlash(p[..|p| - 1])
  }

  predicate HasParent(p: string) {
    LastSlash(p) >= 0
  }

  function Parent(p: string): (d: string)
    requires HasParent(p)
    ensures |d| < |p| && d < p
  {
    p[..LastSlash(p)]
  }

  predicate IsName(n: string) {
    n != [] && '/' !in n
  }

  function Child(d: string, n: string): string {
    d + "/" + n
  }

  lemma ParentOfChild(d: string, n: string)
    requires '/' !in n
    ensures HasParent(Child(d, n)) && Parent(Child(d, n)) == d
  {
    var c := Child(d, n);
    assert c[|d|] == '/';
    assert forall k | |d| < k < |c| :: c[k] == n[k - |d| - 1];
    assert LastSlash(c) == |d|;
  }

  lemma ChildIsInjective(d: string, n: string, m: string)
    requires Child(d, n) == Child(d, m)
    ensures n == m
  {
    assert n == Child(d, n)[|d| + 1..];
    assert m == Child(d, m)[|d| + 1..];
  }

  // The suffix test of `delete_path`.
  predicate IsTxt(p: string) {
    |p| >= 4 && p[|p| - 4..] == ".txt"
  }

  // `p` lies somewhere below directory `d`.
  predicate Below(d: string, p: string) {
    d + "/" <= p
  }

  predicate AtOrBelow(d: string, p: string) {
    p == d || Below(d, p)
  }

  // Subtrees nest, and those of two names in one directory have nothing in common.
  lemma BelowChild(d: string, n: string, p: string)
    requires AtOrBelow(Child(d, n), p)
    ensures Below(d, p)
  {
    assert d + "/" <= Child(d, n);
  }

  lemma BelowNests(d: string, e: string, p: string)
    requires Below(d, e) && AtOrBelow(e, p)
    ensures Below(d, p)
  {
    assert d + "/" <= e <= p;
  }

  lemma SiblingsAreApart(d: string, n: string, m: string, p: string)
    requires '/' !in n && '/' !in m && n != m
    requires AtOrBelow(Child(d, n), p)
    ensures !AtOrBelow(Child(d, m), p)
  {
    if AtOrBelow(Child(d, m), p) {
      NameEndsAtSlash(d, n, p);
      NameEndsAtSlash(d, m, p);
    }
  }

  lemma NameEndsAtSlash(d: string, n: string, p: string)
    requires AtOrBelow(Child(d, n), p)
    ensures |p| >= |d| + 1 + |n|
    ensures forall i | 0 <= i < |n| :: p[|d| + 1..][i] == n[i]
    ensures |p| > |d| + 1 + |n| ==> p[|d| + 1..][|n|] == '/'
  {
    var c := Child(d, n);
    assert forall i | 0 <= i < |n| :: c[|d| + 1 + i] == n[i];
    if p != c {
      assert forall i | 0 <= i <= |c| :: p[i] == (c + "/")[i];
    }
  }

  lemma ParentAndName(p: string) returns (n: string)
    requires HasParent(p)
    ensures '/' !in n && p == Child(Parent(p), n)
  {
    var i := LastSlash(p);
    n := p[i + 1..];
    assert p == p[..i] + [p[i]] + p[i + 1..];
  }

  // The suffix test looks at the name only.
  lemma SuffixOfChild(d: string, n: string)
    requires '/' !in n
    ensures IsTxt(Child(d, n)) <==> IsTxt(n)
  {
    var c := Child(d, n);
    if |n| >= 4 {
      assert c[|c| - 4..] == n[|n| - 4..];
    } else if |c| >= 4 {
      assert c[|c| - 4..][|d| - (|c| - 4)] == '/';
    }
  }

  // An entry below a directory is its child or below the same directory as its parent.
  lemma BelowParent(d: string, p: string)
    requires HasParent(p) && Below(d, p)
    ensures AtOrBelow(d, Parent(p))
  {
    var i := LastSlash(p);
    assert p[|d|] == (d + "/")[|d|];
    if i == |d| {
      assert Parent(p) == d;
    } else {
      assert d + "/" <= Parent(p);
    }
  }

  lemma BelowThroughParent(d: string, p: string)
    requires HasParent(p) && AtOrBelow(d, Parent(p))
    ensures Below(d, p)
  {
    var n := ParentAndName(p);
    assert Parent(p) + "/" <= p;
    if Parent(p) != d { BelowNests(d, Parent(p), p); }
  }
}
