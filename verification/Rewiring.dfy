/** What the four rewirings of the edit engine do to reachability and cycles. */
module Rewiring {
  import opened Basics
  import opened Reachability

  // ---------- deleting a node and joining its parents to its children ----------

  ghost function SplicedOut(r: set<Arc>, n: Id): set<Arc>
  {
    (set x | x in r && x.from != n && x.to != n)
    + (set x, y | x in r && y in r && x.to == n && y.from == n && x.from != y.to :: Arc(x.from, y.to))
  }

  lemma SplicedArcs(r: set<Arc>, n: Id)
    requires Arc(n, n) !in r
    ensures Simulates(r, SplicedOut(r, n))
    ensures forall x :: x in SplicedOut(r, n) ==> x.from != n && x.to != n
  {
    forall z | z in SplicedOut(r, n) ensures exists k: nat :: k > 0 && Walk(r, z.from, z.to, k) {
      if z in r {
        WalkArc(r, z.from, z.to);
      } else {
        var x, y :| x in r && y in r && x.to == n && y.from == n && z == Arc(x.from, y.to);
        WalkArc(r, z.from, n);
        WalkThenArc(r, z.from, n, z.to, 1);
      }
    }
  }

  lemma {:induction false} SpliceKeepsWalk(r: set<Arc>, n: Id, a: Id, b: Id, k: nat)
    requires Arc(n, n) !in r && a != n && b != n && Walk(r, a, b, k)
    ensures Reaches(SplicedOut(r, n), a, b)
    decreases k
  {
    var s := SplicedOut(r, n);
    if k == 0 {
      ReachesSelf(s, a);
    } else {
      var m :| Arc(a, m) in r && Walk(r, m, b, k - 1);
      if m != n {
        SpliceKeepsWalk(r, n, m, b, k - 1);
        assert Arc(a, m) in s;
        WalkArc(s, a, m);
        ReachesJoin(s, a, m, b);
      } else {
        var c :| Arc(n, c) in r && Walk(r, c, b, k - 2);
        SpliceKeepsWalk(r, n, c, b, k - 2);
        if a != c {
          assert Arc(a, n) in r && Arc(a, n).to == Arc(n, c).from;
          assert Arc(a, c) in s;
          WalkArc(s, a, c);
          ReachesJoin(s, a, c, b);
        }
      }
    }
  }

  /** Splicing a node without a self-loop changes no reachability between the others. */
  lemma SpliceKeepsReach(r: set<Arc>, n: Id, a: Id, b: Id)
    requires Arc(n, n) !in r && a != n && b != n
    ensures Reaches(SplicedOut(r, n), a, b) <==> Reaches(r, a, b)
  {
    if Reaches(r, a, b) {
      var k: nat :| Walk(r, a, b, k);
      SpliceKeepsWalk(r, n, a, b, k);
    }
    if Reaches(SplicedOut(r, n), a, b) {
      SplicedArcs(r, n);
      var k: nat :| Walk(SplicedOut(r, n), a, b, k);
      var j := SimulatedWalk(r, SplicedOut(r, n), a, b, k);
    }
  }

  // ---------- deleting a set of nodes ----------

  ghost function CutOff(r: set<Arc>, doomed: set<Id>): set<Arc>
  {
    set x | x in r && x.from !in doomed && x.to !in doomed
  }

  lemma {:induction false} CutOffKeepsWalk(r: set<Arc>, doomed: set<Id>, a: Id, b: Id, k: nat)
    requires forall x :: x in r && x.from in doomed ==> x.to in doomed
    requires b !in doomed && Walk(r, a, b, k)
    ensures a !in doomed && Walk(CutOff(r, doomed), a, b, k)
    decreases k
  {
    if k > 0 {
      var m :| Arc(a, m) in r && Walk(r, m, b, k - 1);
      CutOffKeepsWalk(r, doomed, m, b, k - 1);
      assert Arc(a, m).from == a;
    }
  }

  /** Removing a set closed under the arcs changes no reachability between the others. */
  lemma CutOffKeepsReach(r: set<Arc>, doomed: set<Id>, a: Id, b: Id)
    requires forall x :: x in r && x.from in doomed ==> x.to in doomed
    requires b !in doomed
    ensures Reaches(CutOff(r, doomed), a, b) <==> Reaches(r, a, b)
  {
    if Reaches(r, a, b) {
      var k: nat :| Walk(r, a, b, k);
      CutOffKeepsWalk(r, doomed, a, b, k);
    }
    if Reaches(CutOff(r, doomed), a, b) {
      var k: nat :| Walk(CutOff(r, doomed), a, b, k);
      WalkMonotone(CutOff(r, doomed), r, a, b, k);
    }
  }

  // ---------- inserting a gate between a node and some of its children ----------

  ghost function Gated(r: set<Arc>, p: Id, cs: set<Id>, g: Id): set<Arc>
  {
    (set x | x in r && !(x.from == p && x.to in cs)) + {Arc(p, g)} + set c | c in cs :: Arc(g, c)
  }

  ghost predicate CanGate(r: set<Arc>, p: Id, cs: set<Id>, g: Id)
  {
    && p != g && g !in cs
    && (forall x :: x in r ==> x.from != g && x.to != g)
    && (forall c :: c in cs ==> Arc(p, c) in r)
  }

  lemma GatedSimulates(r: set<Arc>, p: Id, cs: set<Id>, g: Id)
    requires CanGate(r, p, cs, g)
    ensures Simulates(Gated(r, p, cs, g), r)
  {
    var s := Gated(r, p, cs, g);
    forall x | x in r ensures exists k: nat :: k > 0 && Walk(s, x.from, x.to, k) {
      if x.from == p && x.to in cs {
        WalkArc(s, p, g);
        WalkThenArc(s, p, g, x.to, 1);
      } else {
        WalkArc(s, x.from, x.to);
      }
    }
  }

  /** The first step of a walk that avoids the gate at both ends: one old arc, past the gate if need be. */
  lemma FirstOldArc(r: set<Arc>, p: Id, cs: set<Id>, g: Id, a: Id, b: Id, k: nat) returns (m: Id, i: nat)
    requires CanGate(r, p, cs, g) && a != g && b != g && k > 0 && Walk(Gated(r, p, cs, g), a, b, k)
    ensures Arc(a, m) in r && m != g && i < k && Walk(Gated(r, p, cs, g), m, b, i)
  {
    var s := Gated(r, p, cs, g);
    m :| Arc(a, m) in s && Walk(s, m, b, k - 1);
    i := k - 1;
    if m == g {
      m :| Arc(g, m) in s && Walk(s, m, b, k - 2);
      i := k - 2;
    }
  }

  /** A walk that avoids the gate at both ends exists without the gate too. */
  lemma {:induction false} UngatedWalk(r: set<Arc>, p: Id, cs: set<Id>, g: Id, a: Id, b: Id, k: nat) returns (j: nat)
    requires CanGate(r, p, cs, g) && a != g && b != g && Walk(Gated(r, p, cs, g), a, b, k)
    ensures Walk(r, a, b, j) && (k > 0 ==> j > 0)
    decreases k
  {
    if k == 0 {
      j := 0;
    } else {
      var m, i := FirstOldArc(r, p, cs, g, a, b, k);
      var h := UngatedWalk(r, p, cs, g, m, b, i);
      WalkArc(r, a, m);
      WalkJoin(r, a, m, b, 1, h);
      j := 1 + h;
    }
  }

  lemma GateKeepsReach(r: set<Arc>, p: Id, cs: set<Id>, g: Id, a: Id, b: Id)
    requires CanGate(r, p, cs, g) && a != g && b != g
    ensures Reaches(Gated(r, p, cs, g), a, b) <==> Reaches(r, a, b)
  {
    var s := Gated(r, p, cs, g);
    if Reaches(s, a, b) {
      var k: nat :| Walk(s, a, b, k);
      var j := UngatedWalk(r, p, cs, g, a, b, k);
    }
    if Reaches(r, a, b) {
      GatedSimulates(r, p, cs, g);
      var k: nat :| Walk(r, a, b, k);
      var j := SimulatedWalk(s, r, a, b, k);
    }
  }

  lemma GateKeepsAcyclic(r: set<Arc>, p: Id, cs: set<Id>, g: Id)
    requires CanGate(r, p, cs, g) && Acyclic(r)
    ensures Acyclic(Gated(r, p, cs, g))
  {
    var s := Gated(r, p, cs, g);
    forall a: Id, k: nat | k > 0 ensures !Walk(s, a, a, k) {
      if Walk(s, a, a, k) {
        if a != g {
          var j := UngatedWalk(r, p, cs, g, a, a, k);
        } else {
          var c :| Arc(g, c) in s && Walk(s, c, g, k - 1);
          assert c in cs;
          var q := LastArc(s, c, g, k - 1);
          assert q == p;
          var j := UngatedWalk(r, p, cs, g, c, p, k - 2);
          WalkThenArc(r, c, p, c, j);
        }
      }
    }
  }

  // ---------- giving a node a single new parent ----------

  ghost function Reparented(r: set<Arc>, n: Id, q: Id): set<Arc>
  {
    (set x | x in r && x.to != n) + {Arc(q, n)}
  }

  /** A walk either avoids the new arc, or splits at it. */
  lemma {:induction false} SplitAtNewArc(r: set<Arc>, n: Id, q: Id, a: Id, b: Id, k: nat)
    requires Walk(Reparented(r, n, q), a, b, k)
    ensures Walk(r, a, b, k) || (Reaches(Reparented(r, n, q), a, q) && Reaches(Reparented(r, n, q), n, b))
    decreases k
  {
    var s := Reparented(r, n, q);
    if k > 0 {
      var m :| Arc(a, m) in s && Walk(s, m, b, k - 1);
      if Arc(a, m) == Arc(q, n) {
        ReachesSelf(s, q);
      } else {
        SplitAtNewArc(r, n, q, m, b, k - 1);
        WalkArc(s, a, m);
        if !Walk(r, m, b, k - 1) {
          ReachesJoin(s, a, m, q);
        }
      }
    }
  }

  /** What lies below the moved node was below it before. */
  lemma {:induction false} BelowMovedBefore(r: set<Arc>, n: Id, q: Id, b: Id, k: nat)
    requires Walk(Reparented(r, n, q), n, b, k)
    ensures Reaches(r, n, b)
    decreases k
  {
    if k == 0 {
      ReachesSelf(r, n);
    } else {
      var c := LastArc(Reparented(r, n, q), n, b, k);
      if Arc(c, b) == Arc(q, n) {
        ReachesSelf(r, n);
      } else {
        BelowMovedBefore(r, n, q, c, k - 1);
        WalkArc(r, c, b);
        ReachesJoin(r, n, c, b);
      }
    }
  }

  /** On an acyclic relation, what lay below the moved node still does. */
  lemma {:induction false} BelowMovedAfter(r: set<Arc>, n: Id, q: Id, b: Id, k: nat)
    requires Acyclic(r) && Walk(r, n, b, k)
    ensures Reaches(Reparented(r, n, q), n, b)
    decreases k
  {
    var s := Reparented(r, n, q);
    if k == 0 {
      ReachesSelf(s, n);
    } else {
      var c := LastArc(r, n, b, k);
      BelowMovedAfter(r, n, q, c, k - 1);
      assert b != n;
      WalkArc(s, c, b);
      ReachesJoin(s, n, c, b);
    }
  }

  lemma MoveKeepsDescendants(r: set<Arc>, n: Id, q: Id, b: Id)
    requires Acyclic(r)
    ensures Reaches(Reparented(r, n, q), n, b) <==> Reaches(r, n, b)
  {
    if Reaches(r, n, b) {
      var k: nat :| Walk(r, n, b, k);
      BelowMovedAfter(r, n, q, b, k);
    }
    if Reaches(Reparented(r, n, q), n, b) {
      var k: nat :| Walk(Reparented(r, n, q), n, b, k);
      BelowMovedBefore(r, n, q, b, k);
    }
  }

  lemma MoveKeepsAcyclic(r: set<Arc>, n: Id, q: Id)
    requires Acyclic(r) && !Reaches(r, n, q)
    ensures Acyclic(Reparented(r, n, q))
  {
    var s := Reparented(r, n, q);
    forall a: Id, k: nat | k > 0 ensures !Walk(s, a, a, k) {
      if Walk(s, a, a, k) {
        SplitAtNewArc(r, n, q, a, a, k);
        ReachesJoin(s, n, a, q);
        var j: nat :| Walk(s, n, q, j);
        BelowMovedBefore(r, n, q, q, j);
      }
    }
  }

  /** Moving below an own descendant, or below itself, is exactly what would close a cycle. */
  lemma MoveAcyclicIff(r: set<Arc>, n: Id, q: Id)
    requires Acyclic(r)
    ensures Acyclic(Reparented(r, n, q)) <==> !Reaches(r, n, q)
  {
    if Reaches(r, n, q) {
      var s := Reparented(r, n, q);
      MoveKeepsDescendants(r, n, q, q);
      var k: nat :| Walk(s, n, q, k);
      WalkThenArc(s, n, q, n, k);
    } else {
      MoveKeepsAcyclic(r, n, q);
    }
  }
}
