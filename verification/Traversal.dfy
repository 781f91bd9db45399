/** The three graph searches of the edit engine: three-colour cycle detection, breadth-first
    descendants, and depth-bounded breadth-first distances. */
module Traversal {
  import opened Basics
  import opened Reachability
  import opened FaultTree

  type Adjacency = map<Id, seq<Id>>

  function Successors(adj: Adjacency, a: Id): seq<Id>
  {
    if a in adj then adj[a] else []
  }

  ghost predicate Lists(adj: Adjacency, r: set<Arc>)
  {
    forall a, b :: b in Successors(adj, a) <==> Arc(a, b) in r
  }

  /** The children map each search starts by building. */
  method BuildAdjacency(edges: seq<Edge>) returns (adj: Adjacency)
    ensures Lists(adj, ArcsOf(edges))
    ensures forall a :: a in adj <==> exists b :: Arc(a, b) in ArcsOf(edges)
  {
    adj := map[];
    for i := 0 to |edges|
      invariant Lists(adj, ArcsOf(edges[..i]))
      invariant forall a :: a in adj ==> adj[a] != []
    {
      var e := edges[i];
      assert edges[..i + 1] == edges[..i] + [e];
      ArcsOfSnoc(edges[..i], e);
      if !Blank(e) {
        adj := adj[e.from := Successors(adj, e.from) + [e.to]];
      }
    }
    assert edges[..|edges|] == edges;
    forall a ensures a in adj <==> exists b :: Arc(a, b) in ArcsOf(edges) {
      if a in adj {
        assert adj[a][0] in Successors(adj, a);
      }
    }
  }

  datatype Colour = White | Grey | Black

  /** Coloured nodes keep their colour, and no new node is grey. */
  ghost predicate Deepened(before: map<Id, Colour>, after: map<Id, Colour>)
  {
    && (forall a :: a in before ==> a in after && after[a] == before[a])
    && (forall a :: a in after && after[a] == Grey ==> a in before)
  }

  /** The colour map of hasDirectedCycle; identifiers without an entry are white. */
  class CycleSearch {
    const adj: Adjacency
    ghost const r: set<Arc>
    ghost const universe: set<Id>
    var colour: map<Id, Colour>
    ghost var rank: map<Id, nat>
    ghost var clock: nat

    function ColourOf(a: Id): Colour
      reads this
    {
      if a in colour then colour[a] else White
    }

    /** Black identifiers are ranked by finishing time, and their arcs lead to earlier ones. */
    ghost predicate Valid()
      reads this
    {
      && Lists(adj, r)
      && (forall x :: x in r ==> x.from in universe && x.to in universe)
      && colour.Keys <= universe
      && (forall a :: a in colour ==> colour[a] != White)
      && Ranked(r, rank)
      && (forall a :: a in rank <==> a in colour && colour[a] == Black)
      && (forall a :: a in rank ==> rank[a] < clock)
    }

    constructor (adj: Adjacency, ghost r: set<Arc>)
      requires Lists(adj, r)
      ensures Valid() && this.adj == adj && this.r == r && colour == map[]
    {
      this.adj, this.r := adj, r;
      universe := (set x | x in r :: x.from) + (set x | x in r :: x.to);
      colour, rank, clock := map[], map[], 0;
    }

    /** Explores from a white node below which every grey node leads. A cycle is reported only
        if there is one; otherwise the node ends black and the grey nodes are as before. */
    method Visit(node: Id) returns (found: bool)
      requires Valid() && node in universe && ColourOf(node) == White
      requires forall g :: g in colour && colour[g] == Grey ==> Reaches(r, g, node)
      modifies this
      ensures found ==> !Acyclic(r)
      ensures !found ==> Valid() && node in colour && colour[node] == Black && Deepened(old(colour), colour)
      decreases universe - colour.Keys, 0
    {
      ghost var before := colour;
      colour := colour[node := Grey];
      ghost var start := colour;
      var children := Successors(adj, node);
      for i := 0 to |children|
        invariant Valid() && Deepened(start, colour)
        invariant forall j :: 0 <= j < i ==> children[j] in colour && colour[children[j]] == Black
      {
        found := Follow(node, children[i]);
        if found {
          return;
        }
      }
      Finish(node);
      assert Deepened(before, colour);
      found := false;
    }

    /** Follows one arc from a grey node: a grey end closes a cycle, a white one is explored. */
    method Follow(node: Id, child: Id) returns (found: bool)
      requires Valid() && node in colour && colour[node] == Grey && child in Successors(adj, node)
      requires forall g :: g in colour && colour[g] == Grey ==> g == node || Reaches(r, g, node)
      modifies this
      ensures found ==> !Acyclic(r)
      ensures !found ==> Valid() && child in colour && colour[child] == Black && Deepened(old(colour), colour)
      decreases universe - colour.Keys, 1
    {
      assert Arc(node, child) in r;
      match ColourOf(child)
      case Grey =>
        ClosesCycle(node, child);
        found := true;
      case White =>
        GreysLeadOn(node, child);
        found := Visit(child);
      case Black =>
        found := false;
    }

    /** Blackens a grey node all of whose children are black. */
    method Finish(node: Id)
      requires Valid() && node in colour && colour[node] == Grey
      requires forall c :: c in Successors(adj, node) ==> c in colour && colour[c] == Black
      modifies this
      ensures Valid() && colour == old(colour)[node := Black]
    {
      forall x | x in r && x.from == node ensures x.to in rank {
        assert Arc(node, x.to) in r;
      }
      colour := colour[node := Black];
      rank := rank[node := clock];
      clock := clock + 1;
    }

    lemma GreysLeadOn(node: Id, child: Id)
      requires Arc(node, child) in r
      requires forall g :: g in colour && colour[g] == Grey ==> g == node || Reaches(r, g, node)
      ensures forall g :: g in colour && colour[g] == Grey ==> Reaches(r, g, child)
    {
      forall g | g in colour && colour[g] == Grey ensures Reaches(r, g, child) {
        WalkArc(r, node, child);
        if g != node {
          ReachesJoin(r, g, node, child);
        }
      }
    }

    /** An arc back to a grey node closes a walk through it. */
    lemma ClosesCycle(node: Id, child: Id)
      requires Arc(node, child) in r
      requires child == node || Reaches(r, child, node)
      ensures !Acyclic(r)
    {
      ReachesSelf(r, node);
      var k: nat :| Walk(r, child, node, k);
      WalkThenArc(r, child, node, child, k);
      assert Walk(r, child, child, k + 1);
    }
  }

  /** Reports a cycle exactly when the edges with two non-blank ends have a non-empty closed walk,
      in whatever order the start nodes are taken. */
  method HasDirectedCycle(edges: seq<Edge>) returns (found: bool)
    ensures found <==> !Acyclic(ArcsOf(edges))
  {
    var adj := BuildAdjacency(edges);
    ghost var r := ArcsOf(edges);
    var search := new CycleSearch(adj, r);
    var starts := adj.Keys;
    while starts != {}
      invariant search.Valid() && search.adj == adj && search.r == r
      invariant starts <= adj.Keys
      invariant forall a :: a in search.colour ==> search.colour[a] != Grey
      invariant forall a :: a in adj && a !in starts ==> a in search.colour && search.colour[a] == Black
      decreases starts
    {
      var node :| node in starts;
      starts := starts - {node};
      if search.ColourOf(node) == White {
        found := search.Visit(node);
        if found {
          return;
        }
      }
    }
    forall x | x in r ensures x.from in search.rank {
      assert Arc(x.from, x.to) in r;
    }
    RankedAcyclic(r, search.rank);
    found := false;
  }

  /** A set closed under the arcs keeps every walk that starts in it. */
  lemma {:induction false} ClosedKeepsWalks(r: set<Arc>, s: set<Id>, a: Id, b: Id, k: nat)
    requires forall x :: x in r && x.from in s ==> x.to in s
    requires a in s && Walk(r, a, b, k)
    ensures b in s
    decreases k
  {
    if k > 0 {
      var m :| Arc(a, m) in r && Walk(r, m, b, k - 1);
      assert Arc(a, m).from in s;
      ClosedKeepsWalks(r, s, m, b, k - 1);
    }
  }

  ghost function TargetsOf(r: set<Arc>): set<Id>
  {
    set x | x in r :: x.to
  }

  /** Everything properly below a node. */
  ghost function Descendants(edges: seq<Edge>, root: Id): set<Id>
  {
    set a | a in TargetsOf(ArcsOf(edges)) && a != root && Reaches(ArcsOf(edges), root, a)
  }

  lemma DescendantsExact(edges: seq<Edge>, root: Id, a: Id)
    ensures a in Descendants(edges, root) <==> a != root && Reaches(ArcsOf(edges), root, a)
  {
    var r := ArcsOf(edges);
    if a != root && Reaches(r, root, a) {
      var k: nat :| Walk(r, root, a, k);
      var c := LastArc(r, root, a, k);
      assert Arc(c, a).to in TargetsOf(r);
    }
  }

  ghost predicate Collecting(r: set<Arc>, root: Id, visited: set<Id>, queue: seq<Id>, out: seq<Id>,
      expanding: Option<Id>)
  {
    && root !in out && (forall a :: a in visited <==> a == root || a in out)
    && (forall i, j :: 0 <= i < j < |out| ==> out[i] != out[j])
    && visited <= {root} + TargetsOf(r)
    && (forall a :: a in queue ==> a in visited)
    && (forall a :: a in visited ==> Reaches(r, root, a))
    && forall x :: x in r && x.from in visited && Some(x.from) != expanding ==> x.from in queue || x.to in visited
  }

  ghost predicate Among(s: seq<Id>, visited: set<Id>)
  {
    forall a :: a in s ==> a in visited
  }

  lemma CollectsChild(r: set<Arc>, root: Id, visited: set<Id>, queue: seq<Id>, out: seq<Id>, cur: Id, child: Id)
    requires Collecting(r, root, visited, queue, out, Some(cur))
    requires cur in visited && Arc(cur, child) in r && child !in visited
    ensures Collecting(r, root, visited + {child}, queue + [child], out + [child], Some(cur))
  {
    assert Arc(cur, child).to in TargetsOf(r);
    WalkArc(r, cur, child);
    ReachesJoin(r, root, cur, child);
  }

  lemma StartsExpanding(r: set<Arc>, root: Id, visited: set<Id>, queue: seq<Id>, out: seq<Id>)
    requires queue != [] && Collecting(r, root, visited, queue, out, None)
    ensures queue[0] in visited && Collecting(r, root, visited, queue[1..], out, Some(queue[0]))
  {
    assert queue == [queue[0]] + queue[1..];
  }

  lemma EndsExpanding(adj: Adjacency, r: set<Arc>, root: Id, visited: set<Id>, queue: seq<Id>, out: seq<Id>, cur: Id)
    requires Lists(adj, r) && Collecting(r, root, visited, queue, out, Some(cur))
    requires Among(Successors(adj, cur), visited)
    ensures Collecting(r, root, visited, queue, out, None)
  {
    forall x | x in r && x.from in visited ensures x.from in queue || x.to in visited {
      if x.from == cur {
        assert Arc(cur, x.to) in r;
      }
    }
  }

  /** Breadth-first: lists every descendant once, on any graph. */
  method CollectDescendants(edges: seq<Edge>, root: Id) returns (out: seq<Id>)
    ensures (set a | a in out) == Descendants(edges, root)
    ensures forall i, j :: 0 <= i < j < |out| ==> out[i] != out[j]
  {
    if root == NoId {
      NoDescendantsOfBlank(edges);
      return [];
    }
    ghost var r := ArcsOf(edges);
    var adj := BuildAdjacency(edges);
    ReachesSelf(r, root);
    var visited, queue := {root}, [root];
    out := [];
    while queue != []
      invariant Collecting(r, root, visited, queue, out, None)
      decreases {root} + TargetsOf(r) - visited, |queue|
    {
      var cur := queue[0];
      StartsExpanding(r, root, visited, queue, out);
      ghost var seen := visited;
      visited, queue, out := CollectChildren(adj, r, root, visited, queue[1..], out, cur);
      assert {root} + TargetsOf(r) - visited <= {root} + TargetsOf(r) - seen;
    }
    CollectedAll(edges, root, visited, out);
  }

  /** The scan of one node's children. */
  method CollectChildren(adj: Adjacency, ghost r: set<Arc>, ghost root: Id, visited0: set<Id>, queue0: seq<Id>,
                         out0: seq<Id>, cur: Id)
    returns (visited: set<Id>, queue: seq<Id>, out: seq<Id>)
    requires Lists(adj, r) && cur in visited0 && Collecting(r, root, visited0, queue0, out0, Some(cur))
    ensures Collecting(r, root, visited, queue, out, None)
    ensures visited0 <= visited && (visited == visited0 ==> queue == queue0)
  {
    visited, queue, out := visited0, queue0, out0;
    var children := Successors(adj, cur);
    for i := 0 to |children|
      invariant Collecting(r, root, visited, queue, out, Some(cur))
      invariant Among(children[..i], visited)
      invariant visited0 <= visited && (visited == visited0 ==> queue == queue0)
    {
      var child := children[i];
      assert children[..i + 1] == children[..i] + [child];
      if child !in visited {
        CollectsChild(r, root, visited, queue, out, cur, child);
        assert child in visited + {child} && child !in visited0;
        visited := visited + {child};
        out := out + [child];
        queue := queue + [child];
      }
    }
    assert children[..|children|] == children;
    EndsExpanding(adj, r, root, visited, queue, out, cur);
  }

  lemma NoDescendantsOfBlank(edges: seq<Edge>)
    ensures Descendants(edges, NoId) == {}
  {
    forall a ensures a !in Descendants(edges, NoId) {
      if a in Descendants(edges, NoId) {
        var k: nat :| Walk(ArcsOf(edges), NoId, a, k);
        NothingBelowBlank(edges, a, k);
      }
    }
  }

  lemma CollectedAll(edges: seq<Edge>, root: Id, visited: set<Id>, out: seq<Id>)
    requires Collecting(ArcsOf(edges), root, visited, [], out, None)
    ensures (set a | a in out) == Descendants(edges, root)
  {
    var r := ArcsOf(edges);
    forall a ensures a in out <==> a in Descendants(edges, root) {
      DescendantsExact(edges, root, a);
      if Reaches(r, root, a) {
        var k: nat :| Walk(r, root, a, k);
        ClosedKeepsWalks(r, visited, root, a, k);
      }
    }
  }

  lemma NothingBelowBlank(edges: seq<Edge>, a: Id, k: nat)
    requires Walk(ArcsOf(edges), NoId, a, k)
    ensures a == NoId
  {
  }

  /** b is at shortest-path distance d from a. */
  ghost predicate Distance(r: set<Arc>, a: Id, b: Id, d: nat)
  {
    Walk(r, a, b, d) && forall k: nat :: k < d ==> !Walk(r, a, b, k)
  }

  ghost predicate Within(r: set<Arc>, a: Id, b: Id, d: nat)
  {
    exists k: nat :: k <= d && Walk(r, a, b, k)
  }

  datatype Pending = Pending(id: Id, depth: nat)

  ghost predicate Recorded(visited: map<Id, nat>, a: Id, depth: nat)
  {
    a in visited && visited[a] <= depth
  }

  ghost predicate Waits(queue: seq<Pending>, a: Id)
  {
    exists i :: 0 <= i < |queue| && queue[i].id == a
  }

  /** Records are lengths of walks from the root within the bound. */
  ghost predicate RecordsWalks(r: set<Arc>, root: Id, visited: map<Id, nat>, maxDepth: nat)
  {
    && Recorded(visited, root, 0)
    && visited.Keys <= {root} + TargetsOf(r)
    && forall a :: a in visited ==> visited[a] <= maxDepth && Walk(r, root, a, visited[a])
  }

  /** Depths in the queue ascend from level to at most level + 1, and no record is deeper. */
  ghost predicate Levelled(visited: map<Id, nat>, queue: seq<Pending>, level: nat, expanding: Option<Id>)
  {
    && (forall i, j :: 0 <= i < j < |queue| ==> queue[i].depth <= queue[j].depth)
    && (forall i :: 0 <= i < |queue| ==>
          level <= queue[i].depth <= level + 1 && queue[i].id in visited && visited[queue[i].id] == queue[i].depth)
    && (queue != [] || expanding.Some? ==> forall a :: a in visited ==> visited[a] <= level + 1)
  }

  /** Every record below the bound, but the one being expanded, waits or has its children recorded. */
  ghost predicate Expanded(r: set<Arc>, visited: map<Id, nat>, queue: seq<Pending>, maxDepth: nat,
      expanding: Option<Id>)
  {
    forall x :: x in r && x.from in visited && Some(x.from) != expanding && visited[x.from] < maxDepth ==>
      Waits(queue, x.from) || Recorded(visited, x.to, visited[x.from] + 1)
  }

  ghost predicate AllRecorded(visited: map<Id, nat>, s: seq<Id>, depth: nat)
  {
    forall a :: a in s ==> Recorded(visited, a, depth)
  }

  lemma StaysRecorded(visited: map<Id, nat>, s: seq<Id>, child: Id, depth: nat)
    requires AllRecorded(visited, s, depth)
    ensures AllRecorded(visited[child := depth], s + [child], depth)
  {
    forall a | a in s + [child] ensures Recorded(visited[child := depth], a, depth) {
      assert a in s || a == child;
    }
  }

  /** Only children of cur were added, at the given depth, and then something was queued. */
  ghost predicate AddsChildren(r: set<Arc>, visited0: map<Id, nat>, queue0: seq<Pending>, visited: map<Id, nat>,
                               queue: seq<Pending>, cur: Id, depth: nat)
  {
    && (forall a :: a in visited0 ==> a in visited && visited[a] == visited0[a])
    && (forall a :: a in visited && a !in visited0 ==> Arc(cur, a) in r && visited[a] == depth)
    && (visited.Keys == visited0.Keys ==> queue == queue0)
  }

  lemma AddsOneMore(r: set<Arc>, visited0: map<Id, nat>, queue0: seq<Pending>, visited: map<Id, nat>,
                    queue: seq<Pending>, cur: Id, depth: nat, child: Id)
    requires AddsChildren(r, visited0, queue0, visited, queue, cur, depth)
    requires child !in visited && Arc(cur, child) in r
    ensures AddsChildren(r, visited0, queue0, visited[child := depth], queue + [Pending(child, depth)], cur, depth)
  {
    assert child in visited[child := depth].Keys && child !in visited0.Keys;
  }

  lemma LevelledWithChild(visited: map<Id, nat>, queue: seq<Pending>, level: nat, cur: Id, child: Id)
    requires Levelled(visited, queue, level, Some(cur)) && child !in visited
    ensures Levelled(visited[child := level + 1], queue + [Pending(child, level + 1)], level, Some(cur))
  {
  }

  lemma ExpandedWithChild(r: set<Arc>, visited: map<Id, nat>, queue: seq<Pending>, maxDepth: nat, cur: Id, child: Id,
                          depth: nat)
    requires Expanded(r, visited, queue, maxDepth, Some(cur)) && child !in visited
    ensures Expanded(r, visited[child := depth], queue + [Pending(child, depth)], maxDepth, Some(cur))
  {
    var v, q := visited[child := depth], queue + [Pending(child, depth)];
    assert q[|queue|].id == child;
    forall x | x in r && x.from in v && x.from != cur && v[x.from] < maxDepth
      ensures Waits(q, x.from) || Recorded(v, x.to, v[x.from] + 1)
    {
      if x.from != child && Waits(queue, x.from) {
        var i :| 0 <= i < |queue| && queue[i].id == x.from;
        assert q[i].id == x.from;
      }
    }
  }

  lemma StartsDeepening(r: set<Arc>, visited: map<Id, nat>, queue: seq<Pending>, level: nat, maxDepth: nat)
    requires queue != [] && Levelled(visited, queue, level, None) && Expanded(r, visited, queue, maxDepth, None)
    ensures queue[0].id in visited && visited[queue[0].id] == queue[0].depth
    ensures Levelled(visited, queue[1..], queue[0].depth, Some(queue[0].id))
    ensures Expanded(r, visited, queue[1..], maxDepth, Some(queue[0].id))
    ensures queue[0].depth >= maxDepth ==>
      Levelled(visited, queue[1..], queue[0].depth, None) && Expanded(r, visited, queue[1..], maxDepth, None)
  {
    forall a | Waits(queue, a) && a != queue[0].id ensures Waits(queue[1..], a) {
      var i :| 0 <= i < |queue| && queue[i].id == a;
      assert queue[1..][i - 1].id == a;
    }
  }

  lemma EndsDeepening(adj: Adjacency, r: set<Arc>, visited: map<Id, nat>, queue: seq<Pending>, level: nat,
                      maxDepth: nat, cur: Id)
    requires Lists(adj, r) && Expanded(r, visited, queue, maxDepth, Some(cur))
    requires cur in visited && visited[cur] == level
    requires AllRecorded(visited, Successors(adj, cur), level + 1)
    ensures Expanded(r, visited, queue, maxDepth, None)
  {
    forall x | x in r && x.from in visited && visited[x.from] < maxDepth
      ensures Waits(queue, x.from) || Recorded(visited, x.to, visited[x.from] + 1)
    {
      if x.from == cur {
        assert Arc(cur, x.to) in r;
      }
    }
  }

  lemma WalksToChildren(r: set<Arc>, root: Id, visited0: map<Id, nat>, queue0: seq<Pending>, visited: map<Id, nat>,
                        queue: seq<Pending>, cur: Id, maxDepth: nat)
    requires RecordsWalks(r, root, visited0, maxDepth) && cur in visited0 && visited0[cur] < maxDepth
    requires AddsChildren(r, visited0, queue0, visited, queue, cur, visited0[cur] + 1)
    ensures RecordsWalks(r, root, visited, maxDepth)
  {
    forall a | a in visited && a !in visited0
      ensures a in TargetsOf(r) && Walk(r, root, a, visited[a])
    {
      assert Arc(cur, a).to in TargetsOf(r);
      WalkThenArc(r, root, cur, a, visited0[cur]);
    }
  }

  /** The visited map of get_subtree: exactly the nodes within maxDepth, each at its distance. */
  method SubtreeDepths(edges: seq<Edge>, root: Id, maxDepth: nat) returns (visited: map<Id, nat>)
    ensures forall a :: a in visited <==> Within(ArcsOf(edges), root, a, maxDepth)
    ensures forall a :: a in visited ==> visited[a] <= maxDepth && Distance(ArcsOf(edges), root, a, visited[a])
  {
    ghost var r := ArcsOf(edges);
    var adj := BuildAdjacency(edges);
    var queue := [Pending(root, 0)];
    visited := map[root := 0];
    ghost var level := 0;
    assert queue[0].id == root;
    while queue != []
      invariant RecordsWalks(r, root, visited, maxDepth)
      invariant Levelled(visited, queue, level, None) && Expanded(r, visited, queue, maxDepth, None)
      decreases {root} + TargetsOf(r) - visited.Keys, |queue|
    {
      var cur := queue[0];
      StartsDeepening(r, visited, queue, level, maxDepth);
      queue := queue[1..];
      level := cur.depth;
      if cur.depth >= maxDepth {
        continue;
      }
      ghost var seen, waiting := visited, queue;
      visited, queue := RecordChildren(adj, r, visited, queue, cur, maxDepth);
      WalksToChildren(r, root, seen, waiting, visited, queue, cur.id, maxDepth);
      assert seen.Keys <= visited.Keys;
      assert {root} + TargetsOf(r) - visited.Keys <= {root} + TargetsOf(r) - seen.Keys;
    }
    DepthsAreDistances(r, root, visited, maxDepth);
  }

  /** The scan of one node's children: a child is recorded when it is new or its depth improves. */
  method RecordChildren(adj: Adjacency, ghost r: set<Arc>, visited0: map<Id, nat>, queue0: seq<Pending>,
                        cur: Pending, ghost maxDepth: nat)
    returns (visited: map<Id, nat>, queue: seq<Pending>)
    requires Lists(adj, r) && cur.id in visited0 && visited0[cur.id] == cur.depth < maxDepth
    requires Levelled(visited0, queue0, cur.depth, Some(cur.id)) &&
            Expanded(r, visited0, queue0, maxDepth, Some(cur.id))
    ensures Levelled(visited, queue, cur.depth, None) && Expanded(r, visited, queue, maxDepth, None)
    ensures AddsChildren(r, visited0, queue0, visited, queue, cur.id, cur.depth + 1)
  {
    visited, queue := visited0, queue0;
    var children := Successors(adj, cur.id);
    var nextDepth := cur.depth + 1;
    for i := 0 to |children|
      invariant Levelled(visited, queue, cur.depth, Some(cur.id)) && Expanded(r, visited, queue, maxDepth, Some(cur.id))
      invariant AllRecorded(visited, children[..i], nextDepth)
      invariant AddsChildren(r, visited0, queue0, visited, queue, cur.id, nextDepth)
    {
      var child := children[i];
      assert children[..i + 1] == children[..i] + [child];
      if !(child in visited && visited[child] <= nextDepth) {
        LevelledWithChild(visited, queue, cur.depth, cur.id, child);
        ExpandedWithChild(r, visited, queue, maxDepth, cur.id, child, nextDepth);
        StaysRecorded(visited, children[..i], child, nextDepth);
        AddsOneMore(r, visited0, queue0, visited, queue, cur.id, nextDepth, child);
        visited := visited[child := nextDepth];
        queue := queue + [Pending(child, nextDepth)];
      }
    }
    assert children[..|children|] == children;
    EndsDeepening(adj, r, visited, queue, cur.depth, maxDepth, cur.id);
  }

  lemma DepthsAreDistances(r: set<Arc>, root: Id, visited: map<Id, nat>, maxDepth: nat)
    requires RecordsWalks(r, root, visited, maxDepth) && Expanded(r, visited, [], maxDepth, None)
    ensures forall a :: a in visited <==> Within(r, root, a, maxDepth)
    ensures forall a :: a in visited ==> visited[a] <= maxDepth && Distance(r, root, a, visited[a])
  {
    forall a, k: nat | k <= maxDepth && Walk(r, root, a, k) ensures Recorded(visited, a, k) {
      WithinReach(r, visited, root, a, k, maxDepth);
    }
    forall a | a in visited ensures Distance(r, root, a, visited[a]) {
      forall k: nat | k < visited[a] ensures !Walk(r, root, a, k) {
        assert Walk(r, root, a, k) ==> Recorded(visited, a, k);
      }
    }
  }

  lemma {:induction false} WithinReach(r: set<Arc>, visited: map<Id, nat>, root: Id, a: Id, k: nat, maxDepth: nat)
    requires Recorded(visited, root, 0)
    requires forall x :: x in r && x.from in visited && visited[x.from] < maxDepth ==>
      Recorded(visited, x.to, visited[x.from] + 1)
    requires k <= maxDepth && Walk(r, root, a, k)
    ensures Recorded(visited, a, k)
    decreases k
  {
    if k > 0 {
      var c := LastArc(r, root, a, k);
      WithinReach(r, visited, root, c, k - 1, maxDepth);
      assert Arc(c, a).from in visited;
    }
  }
}
