/** Walks, reachability and cycles of a finite relation on identifiers. */
module Reachability {
  import opened Basics

  datatype Arc = Arc(from: Id, to: Id)

  /** b can be reached from a in exactly k steps. */
  ghost predicate Walk(r: set<Arc>, a: Id, b: Id, k: nat)
    decreases k
  {
    if k == 0 then a == b else exists c :: Arc(a, c) in r && Walk(r, c, b, k - 1)
  }

  ghost predicate Reaches(r: set<Arc>, a: Id, b: Id)
  {
    exists k: nat :: Walk(r, a, b, k)
  }

  /** No non-empty closed walk. */
  ghost predicate Acyclic(r: set<Arc>)
  {
    forall a: Id, k: nat :: k > 0 ==> !Walk(r, a, a, k)
  }

  lemma {:induction false} WalkJoin(r: set<Arc>, a: Id, b: Id, c: Id, j: nat, k: nat)
    requires Walk(r, a, b, j) && Walk(r, b, c, k)
    ensures Walk(r, a, c, j + k)
    decreases j
  {
    if j > 0 {
      var m :| Arc(a, m) in r && Walk(r, m, b, j - 1);
      WalkJoin(r, m, b, c, j - 1, k);
    }
  }

  lemma ReachesJoin(r: set<Arc>, a: Id, b: Id, c: Id)
    requires Reaches(r, a, b) && Reaches(r, b, c)
    ensures Reaches(r, a, c)
  {
    var j: nat :| Walk(r, a, b, j);
    var k: nat :| Walk(r, b, c, k);
    WalkJoin(r, a, b, c, j, k);
  }

  lemma WalkArc(r: set<Arc>, a: Id, b: Id)
    requires Arc(a, b) in r
    ensures Walk(r, a, b, 1) && Reaches(r, a, b)
  {
    assert Walk(r, b, b, 0);
  }

  lemma ReachesSelf(r: set<Arc>, a: Id)
    ensures Reaches(r, a, a)
  {
    assert Walk(r, a, a, 0);
  }

  /** A walk extended by one arc at its end. */
  lemma WalkThenArc(r: set<Arc>, a: Id, b: Id, c: Id, k: nat)
    requires Walk(r, a, b, k) && Arc(b, c) in r
    ensures Walk(r, a, c, k + 1) && Reaches(r, a, c)
  {
    WalkArc(r, b, c);
    WalkJoin(r, a, b, c, k, 1);
  }

  /** The last arc of a non-empty walk. */
  lemma {:induction false} LastArc(r: set<Arc>, a: Id, b: Id, k: nat) returns (c: Id)
    requires k > 0 && Walk(r, a, b, k)
    ensures Walk(r, a, c, k - 1) && Arc(c, b) in r
    decreases k
  {
    var m :| Arc(a, m) in r && Walk(r, m, b, k - 1);
    if k == 1 {
      c := a;
    } else {
      c := LastArc(r, m, b, k - 1);
    }
  }

  lemma {:induction false} WalkMonotone(r: set<Arc>, s: set<Arc>, a: Id, b: Id, k: nat)
    requires r <= s && Walk(r, a, b, k)
    ensures Walk(s, a, b, k)
    decreases k
  {
    if k > 0 {
      var m :| Arc(a, m) in r && Walk(r, m, b, k - 1);
      WalkMonotone(r, s, m, b, k - 1);
    }
  }

  /** Every arc of r is a non-empty walk of s. */
  ghost predicate Simulates(s: set<Arc>, r: set<Arc>)
  {
    forall x :: x in r ==> exists k: nat :: k > 0 && Walk(s, x.from, x.to, k)
  }

  lemma {:induction false} SimulatedWalk(s: set<Arc>, r: set<Arc>, a: Id, b: Id, k: nat) returns (j: nat)
    requires Simulates(s, r) && Walk(r, a, b, k)
    ensures j >= k && Walk(s, a, b, j)
    decreases k
  {
    if k == 0 {
      j := 0;
    } else {
      var m :| Arc(a, m) in r && Walk(r, m, b, k - 1);
      var h: nat :| h > 0 && Walk(s, Arc(a, m).from, Arc(a, m).to, h);
      var t := SimulatedWalk(s, r, m, b, k - 1);
      WalkJoin(s, a, m, b, h, t);
      j := h + t;
    }
  }

  lemma SimulatedAcyclic(s: set<Arc>, r: set<Arc>)
    requires Simulates(s, r) && Acyclic(s)
    ensures Acyclic(r)
  {
    forall a: Id, k: nat | k > 0 ensures !Walk(r, a, a, k) {
      if Walk(r, a, a, k) {
        var j := SimulatedWalk(s, r, a, a, k);
      }
    }
  }

  lemma SubsetAcyclic(s: set<Arc>, r: set<Arc>)
    requires r <= s && Acyclic(s)
    ensures Acyclic(r)
  {
    forall x | x in r ensures exists k: nat :: k > 0 && Walk(s, x.from, x.to, k) {
      WalkArc(s, x.from, x.to);
    }
    SimulatedAcyclic(s, r);
  }

  /** A ranking that drops along every arc leaving a ranked point; ranked points lie on no cycle. */
  ghost predicate Ranked(r: set<Arc>, rank: map<Id, nat>)
  {
    forall x :: x in r && x.from in rank ==> x.to in rank && rank[x.to] < rank[x.from]
  }

  lemma {:induction false} RankDrops(r: set<Arc>, rank: map<Id, nat>, a: Id, b: Id, k: nat)
    requires Ranked(r, rank) && a in rank && Walk(r, a, b, k)
    ensures b in rank && rank[b] + k <= rank[a]
    decreases k
  {
    if k > 0 {
      var m :| Arc(a, m) in r && Walk(r, m, b, k - 1);
      assert Arc(a, m).from == a;
      RankDrops(r, rank, m, b, k - 1);
    }
  }

  lemma RankedAcyclic(r: set<Arc>, rank: map<Id, nat>)
    requires Ranked(r, rank)
    requires forall x :: x in r ==> x.from in rank
    ensures Acyclic(r)
  {
    forall a: Id, k: nat | k > 0 ensures !Walk(r, a, a, k) {
      if Walk(r, a, a, k) {
        var m :| Arc(a, m) in r && Walk(r, m, a, k - 1);
        assert Arc(a, m).from in rank;
        RankDrops(r, rank, a, a, k);
      }
    }
  }
}
