/** The building blocks of the operations seen as changes of the arc relation and of the row keys. */
module GraphEffects {
  import opened Basics
  import opened Reachability
  import opened FaultTree
  import opened Edits

  // ---------- cutting edges ----------

  lemma CutArcs(edges: seq<Edge>, cut: set<Edge>)
    requires forall e, f :: e in cut && f in edges && e.from == f.from && e.to == f.to ==> f in cut
    ensures forall x ::
      x in ArcsOf(Without(edges, cut)) <==> x in ArcsOf(edges) && forall e :: e in cut ==> Arc(e.from, e.to) != x
  {
    WithoutMembers(edges, cut);
    forall x
      ensures x in ArcsOf(Without(edges, cut))
              <==> x in ArcsOf(edges) && forall e :: e in cut ==> Arc(e.from, e.to) != x
    {
      if x in ArcsOf(edges) {
        var e :| e in edges && !Blank(e) && Arc(e.from, e.to) == x;
        if e !in cut {
          assert e in Without(edges, cut);
        }
      }
    }
  }

  // ---------- connecting ----------

  predicate ArcBlank(x: Arc)
  {
    x.from == NoId || x.to == NoId
  }

  ghost function ArcSet(arcs: seq<Arc>): set<Arc>
  {
    set x | x in arcs
  }

  /** Connecting appends the added edges, whose arcs are among the requested ones and whose
      identifiers ascend from next. */
  lemma {:induction false} ConnectAppends(edges: seq<Edge>, next: nat, arcs: seq<Arc>)
    ensures var (es, added) := Connect(edges, next, arcs); es == edges + added
    ensures forall e :: e in Connect(edges, next, arcs).1 ==>
      Arc(e.from, e.to) in arcs && e.id.Id? && next <= e.id.serial < next + |arcs|
    ensures DistinctEdges(Connect(edges, next, arcs).1)
    decreases |arcs|
  {
    if arcs != [] {
      var n := |arcs| - 1;
      ConnectAppends(edges, next, arcs[..n]);
      var (es, added) := Connect(edges, next, arcs[..n]);
      var e := Edge(Id(next + n), arcs[n].from, arcs[n].to);
      assert arcs[n] in arcs;
      if !Joins(es, e.from, e.to) {
        assert (edges + added) + [e] == edges + (added + [e]);
        forall i | 0 <= i < |added| ensures added[i].id != e.id {
          assert added[i] in added;
        }
      }
    }
  }

  lemma {:induction false} ConnectArcs(edges: seq<Edge>, next: nat, arcs: seq<Arc>)
    requires forall x :: x in arcs ==> !ArcBlank(x)
    ensures ArcsOf(Connect(edges, next, arcs).0) == ArcsOf(edges) + ArcSet(arcs)
    decreases |arcs|
  {
    if arcs != [] {
      var n := |arcs| - 1;
      ConnectArcs(edges, next, arcs[..n]);
      var (es, added) := Connect(edges, next, arcs[..n]);
      var e := Edge(Id(next + n), arcs[n].from, arcs[n].to);
      assert arcs == arcs[..n] + [arcs[n]] && !ArcBlank(arcs[n]);
      assert ArcSet(arcs) == ArcSet(arcs[..n]) + {arcs[n]};
      if Joins(es, e.from, e.to) {
        var f :| f in es && f.from == e.from && f.to == e.to;
        assert arcs[n] == Arc(f.from, f.to);
      } else {
        ArcsOfSnoc(es, e);
      }
    }
  }

  // ---------- lists of arcs ----------

  lemma {:induction false} PairsFromMembers(p: Id, children: seq<Id>)
    ensures forall x :: x in PairsFrom(p, children) <==> x.from == p && x.to in children && x.to != p
    decreases |children|
  {
    if children != [] {
      PairsFromMembers(p, children[..|children| - 1]);
      assert children == children[..|children| - 1] + [children[|children| - 1]];
    }
  }

  lemma {:induction false} PairsMembers(parents: seq<Id>, children: seq<Id>)
    ensures forall x :: x in Pairs(parents, children) <==> x.from in parents && x.to in children && x.from != x.to
    decreases |parents|
  {
    if parents != [] {
      PairsMembers(parents[..|parents| - 1], children);
      PairsFromMembers(parents[|parents| - 1], children);
      assert parents == parents[..|parents| - 1] + [parents[|parents| - 1]];
    }
  }

  lemma {:induction false} DistinctMembers(ids: seq<Id>)
    ensures forall x :: x in Distinct(ids) <==> x in ids && x != NoId
    ensures forall i, j :: 0 <= i < j < |Distinct(ids)| ==> Distinct(ids)[i] != Distinct(ids)[j]
    decreases |ids|
  {
    if ids != [] {
      DistinctMembers(ids[..|ids| - 1]);
      assert ids == ids[..|ids| - 1] + [ids[|ids| - 1]];
    }
  }

  // ---------- row keys ----------

  lemma {:induction false} WithoutKeepsDistinct(nodes: seq<Node>, doomed: set<Node>)
    requires DistinctNodes(nodes)
    ensures DistinctNodes(Without(nodes, doomed))
    decreases |nodes|
  {
    if nodes != [] {
      var init := nodes[..|nodes| - 1];
      WithoutKeepsDistinct(init, doomed);
      WithoutMembers(init, doomed);
      var kept := Without(init, doomed);
      forall i | 0 <= i < |kept| ensures kept[i].id != nodes[|nodes| - 1].id {
        assert kept[i] in init;
      }
    }
  }

  lemma {:induction false} WithoutKeepsDistinctEdges(edges: seq<Edge>, doomed: set<Edge>)
    requires DistinctEdges(edges)
    ensures DistinctEdges(Without(edges, doomed))
    decreases |edges|
  {
    if edges != [] {
      var init := edges[..|edges| - 1];
      WithoutKeepsDistinctEdges(init, doomed);
      WithoutMembers(init, doomed);
      var kept := Without(init, doomed);
      forall i | 0 <= i < |kept| ensures kept[i].id != edges[|edges| - 1].id {
        assert kept[i] in init;
      }
    }
  }

  lemma NodeWithExact(nodes: seq<Node>, id: Id)
    requires DistinctNodes(nodes)
    ensures forall n :: n in nodes && n.id == id ==> NodeWith(nodes, id) == Some(n)
    ensures NodeWith(nodes, id).Some? ==> NodeWith(nodes, id).value in nodes && NodeWith(nodes, id).value.id == id
    ensures NodeWith(nodes, id).None? ==> forall n :: n in nodes ==> n.id != id
  {
    PositionComplete(nodes, id);
    forall n | n in nodes && n.id == id ensures NodeWith(nodes, id) == Some(n) {
      var i :| 0 <= i < |nodes| && nodes[i] == n;
    }
  }
}
