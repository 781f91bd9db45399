/** The constraint checker and the two safety gates built on it. */
module Constraints {
  import opened Basics
  import opened Reachability
  import opened FaultTree
  import opened Traversal
  import opened Edits
  import opened GraphEffects
  import opened Restructuring

  datatype IssueCode =
    | EdgeNodeIdEmpty | EdgeSourceNotFound | EdgeTargetNotFound
    | BasicEventAsParent | TopEventAsChild | GateHasGateChild
    | TopEventNotRoot | BasicEventHasChildren | InvalidGateType | NotGateChildCountTooHigh | GateChildCountTooLow
    | MissingTopEvent | MultipleTopEvents | CycleDetected

  datatype Issue = Issue(nodeId: Id, code: IssueCode)

  predicate IsWarning(code: IssueCode)
  {
    code == BasicEventHasChildren || code == NotGateChildCountTooHigh || code == GateChildCountTooLow
  }

  /** Errors block, and so do these three warnings. */
  predicate Blocks(code: IssueCode)
  {
    !IsWarning(code) || code in {BasicEventHasChildren, GateChildCountTooLow, NotGateChildCountTooHigh}
  }

  const FATAL_CODES := {CycleDetected, MissingTopEvent, MultipleTopEvents, TopEventAsChild, TopEventNotRoot,
                        EdgeNodeIdEmpty, EdgeSourceNotFound, EdgeTargetNotFound}

  // ---------- what warrants an issue ----------

  predicate GoodEdge(nodes: seq<Node>, e: Edge)
  {
    !Blank(e) && NodeWith(nodes, e.from).Some? && NodeWith(nodes, e.to).Some?
  }

  function EdgeIssues(nodes: seq<Node>, e: Edge): set<Issue>
  {
    if Blank(e) then {Issue(NoId, EdgeNodeIdEmpty)}
    else if NodeWith(nodes, e.from).None? then {Issue(e.from, EdgeSourceNotFound)}
    else if NodeWith(nodes, e.to).None? then {Issue(e.to, EdgeTargetNotFound)}
    else
      var f, t := NodeWith(nodes, e.from).value.kind, NodeWith(nodes, e.to).value.kind;
      (if f == BasicEvent then {Issue(e.from, BasicEventAsParent)} else {})
      + (if t == TopEvent then {Issue(e.to, TopEventAsChild)} else {})
      + (if f == Gate && t == Gate then {Issue(e.to, GateHasGateChild)} else {})
  }

  /** The number of good edges out of a node. */
  function OutDegree(nodes: seq<Node>, edges: seq<Edge>, id: Id): nat
  {
    if edges == [] then 0
    else
      var e := edges[|edges| - 1];
      OutDegree(nodes, edges[..|edges| - 1], id) + if GoodEdge(nodes, e) && e.from == id then 1 else 0
  }

  function InDegree(nodes: seq<Node>, edges: seq<Edge>, id: Id): nat
  {
    if edges == [] then 0
    else
      var e := edges[|edges| - 1];
      InDegree(nodes, edges[..|edges| - 1], id) + if GoodEdge(nodes, e) && e.to == id then 1 else 0
  }

  function NodeIssues(n: Node, inDegree: nat, outDegree: nat): set<Issue>
  {
    match n.kind
    case TopEvent => if inDegree > 0 then {Issue(n.id, TopEventNotRoot)} else {}
    case BasicEvent => if outDegree > 0 then {Issue(n.id, BasicEventHasChildren)} else {}
    case Gate =>
      if n.gate.None? then {Issue(n.id, InvalidGateType)}
      else if n.gate.value == Not then if outDegree > 1 then {Issue(n.id, NotGateChildCountTooHigh)} else {}
      else if outDegree < 2 then {Issue(n.id, GateChildCountTooLow)}
      else {}
    case _ => {}
  }

  function TopEvents(nodes: seq<Node>): nat
  {
    if nodes == [] then 0
    else TopEvents(nodes[..|nodes| - 1]) + if nodes[|nodes| - 1].kind == TopEvent then 1 else 0
  }

  ghost function WholeIssues(g: Graph): set<Issue>
  {
    (if TopEvents(g.nodes) == 0 then {Issue(NoId, MissingTopEvent)}
     else if TopEvents(g.nodes) > 1 then {Issue(NoId, MultipleTopEvents)}
     else {})
    + if Acyclic(ArcsOf(g.edges)) then {} else {Issue(NoId, CycleDetected)}
  }

  ghost predicate EdgeWarrants(nodes: seq<Node>, edges: seq<Edge>, x: Issue)
  {
    exists e :: e in edges && x in EdgeIssues(nodes, e)
  }

  ghost predicate NodeWarrants(g: Graph, nodes: seq<Node>, x: Issue)
  {
    exists n :: n in nodes && x in NodeIssues(n, InDegree(g.nodes, g.edges, n.id), OutDegree(g.nodes, g.edges, n.id))
  }

  ghost predicate Warranted(g: Graph, x: Issue)
  {
    EdgeWarrants(g.nodes, g.edges, x) || NodeWarrants(g, g.nodes, x) || x in WholeIssues(g)
  }

  // ---------- the checker ----------

  function Count(degrees: map<Id, nat>, id: Id): nat
  {
    if id in degrees then degrees[id] else 0
  }

  ghost predicate KindsOf(kinds: map<Id, NodeKind>, nodes: seq<Node>)
  {
    forall id :: (id in kinds <==> NodeWith(nodes, id).Some?) &&
      (id in kinds ==> kinds[id] == NodeWith(nodes, id).value.kind)
  }

  method CollectKinds(nodes: seq<Node>) returns (kinds: map<Id, NodeKind>)
    ensures KindsOf(kinds, nodes)
  {
    kinds := map[];
    for i := 0 to |nodes|
      invariant KindsOf(kinds, nodes[..i])
    {
      assert nodes[..i + 1][..i] == nodes[..i];
      kinds := kinds[nodes[i].id := nodes[i].kind];
    }
    assert nodes[..|nodes|] == nodes;
  }

  ghost predicate SameMembers(issues: seq<Issue>, s: set<Issue>)
  {
    forall x :: x in issues <==> x in s
  }

  /** The issues of one edge in the order the checker appends them. */
  method CheckEdge(kinds: map<Id, NodeKind>, e: Edge, ghost nodes: seq<Node>) returns (issues: seq<Issue>, good: bool)
    requires KindsOf(kinds, nodes)
    ensures SameMembers(issues, EdgeIssues(nodes, e)) && (good <==> GoodEdge(nodes, e))
  {
    issues, good := [], false;
    if e.from == NoId || e.to == NoId {
      return [Issue(NoId, EdgeNodeIdEmpty)], false;
    }
    if e.from !in kinds {
      return [Issue(e.from, EdgeSourceNotFound)], false;
    }
    if e.to !in kinds {
      return [Issue(e.to, EdgeTargetNotFound)], false;
    }
    good := true;
    if kinds[e.from] == BasicEvent {
      issues := issues + [Issue(e.from, BasicEventAsParent)];
    }
    if kinds[e.to] == TopEvent {
      issues := issues + [Issue(e.to, TopEventAsChild)];
    }
    if kinds[e.from] == Gate && kinds[e.to] == Gate {
      issues := issues + [Issue(e.to, GateHasGateChild)];
    }
  }

  method CheckEdges(nodes: seq<Node>, edges: seq<Edge>)
    returns (issues: seq<Issue>, inDegree: map<Id, nat>, outDegree: map<Id, nat>)
    ensures forall x :: x in issues <==> EdgeWarrants(nodes, edges, x)
    ensures forall id :: Count(inDegree, id) == InDegree(nodes, edges, id)
    ensures forall id :: Count(outDegree, id) == OutDegree(nodes, edges, id)
  {
    var kinds := CollectKinds(nodes);
    issues, inDegree, outDegree := [], map[], map[];
    for i := 0 to |edges|
      invariant forall x :: x in issues <==> EdgeWarrants(nodes, edges[..i], x)
      invariant forall id :: Count(inDegree, id) == InDegree(nodes, edges[..i], id)
      invariant forall id :: Count(outDegree, id) == OutDegree(nodes, edges[..i], id)
    {
      var e := edges[i];
      assert edges[..i + 1][..i] == edges[..i] && edges[..i + 1] == edges[..i] + [e];
      var found, good := CheckEdge(kinds, e, nodes);
      EdgeWarrantsSnoc(nodes, edges[..i], e);
      issues := issues + found;
      if good {
        outDegree := outDegree[e.from := Count(outDegree, e.from) + 1];
        inDegree := inDegree[e.to := Count(inDegree, e.to) + 1];
      }
    }
    assert edges[..|edges|] == edges;
  }

  lemma EdgeWarrantsSnoc(nodes: seq<Node>, edges: seq<Edge>, e: Edge)
    ensures forall x ::
      EdgeWarrants(nodes, edges + [e], x) <==> EdgeWarrants(nodes, edges, x) || x in EdgeIssues(nodes, e)
  {
    assert e in edges + [e];
    assert forall f :: f in edges ==> f in edges + [e];
  }

  lemma NodeWarrantsSnoc(g: Graph, nodes: seq<Node>, n: Node)
    ensures forall x :: NodeWarrants(g, nodes + [n], x) <==>
      NodeWarrants(g, nodes, x) || x in NodeIssues(n, InDegree(g.nodes, g.edges, n.id),
        OutDegree(g.nodes, g.edges, n.id))
  {
    assert n in nodes + [n];
    assert forall m :: m in nodes ==> m in nodes + [n];
  }

  method CheckNode(n: Node, inDegree: nat, outDegree: nat) returns (issues: seq<Issue>)
    ensures SameMembers(issues, NodeIssues(n, inDegree, outDegree))
  {
    issues := [];
    if n.kind == TopEvent && inDegree > 0 {
      issues := issues + [Issue(n.id, TopEventNotRoot)];
    }
    if n.kind == BasicEvent && outDegree > 0 {
      issues := issues + [Issue(n.id, BasicEventHasChildren)];
    }
    if n.kind == Gate {
      if n.gate.None? {
        return issues + [Issue(n.id, InvalidGateType)];
      }
      if n.gate.value == Not {
        if outDegree > 1 {
          issues := issues + [Issue(n.id, NotGateChildCountTooHigh)];
        }
        return;
      }
      if outDegree < 2 {
        issues := issues + [Issue(n.id, GateChildCountTooLow)];
      }
    }
  }

  /** Reports exactly the warranted issues. */
  method EvaluateIssues(g: Graph) returns (issues: seq<Issue>)
    ensures forall x :: x in issues <==> Warranted(g, x)
  {
    var edgeIssues, inDegree, outDegree := CheckEdges(g.nodes, g.edges);
    var nodeIssues, topEvents := [], 0;
    for i := 0 to |g.nodes|
      invariant forall x :: x in nodeIssues <==> NodeWarrants(g, g.nodes[..i], x)
      invariant topEvents == TopEvents(g.nodes[..i])
    {
      var n := g.nodes[i];
      assert g.nodes[..i + 1][..i] == g.nodes[..i] && g.nodes[..i + 1] == g.nodes[..i] + [n];
      NodeWarrantsSnoc(g, g.nodes[..i], n);
      if n.kind == TopEvent {
        topEvents := topEvents + 1;
      }
      var found := CheckNode(n, Count(inDegree, n.id), Count(outDegree, n.id));
      nodeIssues := nodeIssues + found;
    }
    assert g.nodes[..|g.nodes|] == g.nodes;
    var rest := [];
    if topEvents == 0 {
      rest := rest + [Issue(NoId, MissingTopEvent)];
    } else if topEvents > 1 {
      rest := rest + [Issue(NoId, MultipleTopEvents)];
    }
    var cyclic := HasDirectedCycle(g.edges);
    if cyclic {
      rest := rest + [Issue(NoId, CycleDetected)];
    }
    issues := edgeIssues + nodeIssues + rest;
  }

  // ---------- the gates ----------

  ghost predicate PassesStrict(g: Graph)
  {
    forall x :: Warranted(g, x) ==> !Blocks(x.code)
  }

  /** No issue with one of these codes is warranted. */
  ghost predicate Silent(g: Graph, codes: set<IssueCode>)
  {
    forall x :: Warranted(g, x) ==> x.code !in codes
  }

  ghost predicate PassesPermissive(g: Graph)
  {
    Silent(g, FATAL_CODES)
  }

  /** The graph rules as a reader would state them. */
  ghost predicate SomeTopEvent(nodes: seq<Node>)
  {
    exists i :: 0 <= i < |nodes| && nodes[i].kind == TopEvent
  }

  ghost predicate TwoTopEvents(nodes: seq<Node>)
  {
    exists i, j :: 0 <= i < j < |nodes| && nodes[i].kind == TopEvent && nodes[j].kind == TopEvent
  }

  ghost predicate OneTopEvent(nodes: seq<Node>)
  {
    SomeTopEvent(nodes) && !TwoTopEvents(nodes)
  }

  ghost predicate TopEventsAreRoots(g: Graph)
  {
    forall n, e :: n in g.nodes && n.kind == TopEvent && e in g.edges ==> e.to != n.id
  }

  ghost predicate BasicEventsAreLeaves(g: Graph)
  {
    forall n, e :: n in g.nodes && n.kind == BasicEvent && e in g.edges ==> e.from != n.id
  }

  ghost predicate NoGateBelowGate(g: Graph)
  {
    forall m, n, e :: m in g.nodes && n in g.nodes && e in g.edges && m.kind == Gate && n.kind == Gate ==>
      !(e.from == m.id && e.to == n.id)
  }

  ghost predicate TwoFrom(edges: seq<Edge>, id: Id)
  {
    exists i, j :: 0 <= i < j < |edges| && edges[i].from == id && edges[j].from == id
  }

  ghost predicate GatesAreFilled(g: Graph)
  {
    forall n :: n in g.nodes && n.kind == Gate ==> n.gate.Some? && (n.gate.value == Not <==> !TwoFrom(g.edges, n.id))
  }

  /** No cycle, one top event, nothing above it, no edge without its two nodes. */
  ghost predicate FatalFree(g: Graph)
  {
    EndsExist(g) && OneTopEvent(g.nodes) && TopEventsAreRoots(g) && Acyclic(ArcsOf(g.edges))
  }

  ghost predicate WellFormed(g: Graph)
  {
    FatalFree(g) && BasicEventsAreLeaves(g) && NoGateBelowGate(g) && GatesAreFilled(g)
  }

  method EnforceStrict(g: Graph) returns (error: Option<Error>)
    ensures error == if PassesStrict(g) then None else Some(OperationNotAllowed)
  {
    var issues := EvaluateIssues(g);
    var blocking := [];
    for i := 0 to |issues|
      invariant blocking == [] <==> forall j :: 0 <= j < i ==> !Blocks(issues[j].code)
    {
      if Blocks(issues[i].code) {
        blocking := blocking + [issues[i]];
      }
    }
    PassesByIndex(issues);
    error := if |blocking| == 0 then None else Some(OperationNotAllowed);
  }

  method EnforcePermissive(g: Graph) returns (error: Option<Error>)
    ensures error == if PassesPermissive(g) then None else Some(OperationNotAllowed)
  {
    var issues := EvaluateIssues(g);
    var blocking := [];
    for i := 0 to |issues|
      invariant blocking == [] <==> forall j :: 0 <= j < i ==> issues[j].code !in FATAL_CODES
    {
      if issues[i].code in FATAL_CODES {
        blocking := blocking + [issues[i]];
      }
    }
    PassesByIndex(issues);
    error := if |blocking| == 0 then None else Some(OperationNotAllowed);
  }

  lemma PassesByIndex(issues: seq<Issue>)
    ensures (forall j :: 0 <= j < |issues| ==> !Blocks(issues[j].code)) <==> forall x :: x in issues ==> !Blocks(x.code)
    ensures (forall j :: 0 <= j < |issues| ==> issues[j].code !in FATAL_CODES) <==>
      forall x :: x in issues ==> x.code !in FATAL_CODES
  {
    assert forall j :: 0 <= j < |issues| ==> issues[j] in issues;
  }

  // ---------- the gates decide the rules exactly ----------

  lemma {:induction false} TopEventsCount(nodes: seq<Node>)
    ensures TopEvents(nodes) >= 1 <==> SomeTopEvent(nodes)
    ensures TopEvents(nodes) >= 2 <==> TwoTopEvents(nodes)
  {
    if nodes != [] {
      var m := |nodes| - 1;
      var init := nodes[..m];
      TopEventsCount(init);
      if SomeTopEvent(init) {
        var i :| 0 <= i < |init| && init[i].kind == TopEvent;
        assert nodes[i].kind == TopEvent;
        assert nodes[m].kind == TopEvent ==> TwoTopEvents(nodes);
      }
      if TwoTopEvents(init) {
        var i, j :| 0 <= i < j < |init| && init[i].kind == TopEvent && init[j].kind == TopEvent;
        assert nodes[i].kind == TopEvent && nodes[j].kind == TopEvent;
      }
      if TwoTopEvents(nodes) {
        var i, j :| 0 <= i < j < |nodes| && nodes[i].kind == TopEvent && nodes[j].kind == TopEvent;
        assert init[i].kind == TopEvent;
        assert j < m ==> init[j].kind == TopEvent;
      }
      if SomeTopEvent(nodes) {
        var i :| 0 <= i < |nodes| && nodes[i].kind == TopEvent;
        assert i < m ==> init[i].kind == TopEvent;
      }
    }
  }

  ghost predicate OneFrom(edges: seq<Edge>, id: Id)
  {
    exists i :: 0 <= i < |edges| && edges[i].from == id
  }

  lemma {:induction false} OutDegreeCounts(nodes: seq<Node>, edges: seq<Edge>, id: Id)
    requires forall e :: e in edges ==> GoodEdge(nodes, e)
    ensures OutDegree(nodes, edges, id) >= 1 <==> OneFrom(edges, id)
    ensures OutDegree(nodes, edges, id) >= 2 <==> TwoFrom(edges, id)
  {
    if edges != [] {
      var m := |edges| - 1;
      var init := edges[..m];
      OutDegreeCounts(nodes, init, id);
      assert edges[m] in edges;
      if OneFrom(init, id) {
        var i :| 0 <= i < |init| && init[i].from == id;
        assert edges[i].from == id;
        assert edges[m].from == id ==> TwoFrom(edges, id);
      }
      if TwoFrom(init, id) {
        var i, j :| 0 <= i < j < |init| && init[i].from == id && init[j].from == id;
        assert edges[i].from == id && edges[j].from == id;
      }
      if TwoFrom(edges, id) {
        var i, j :| 0 <= i < j < |edges| && edges[i].from == id && edges[j].from == id;
        assert init[i].from == id;
        assert j < m ==> init[j].from == id;
      }
      if OneFrom(edges, id) {
        var i :| 0 <= i < |edges| && edges[i].from == id;
        assert i < m ==> init[i].from == id;
      }
    }
  }

  lemma {:induction false} InDegreeCounts(nodes: seq<Node>, edges: seq<Edge>, id: Id)
    requires forall e :: e in edges ==> GoodEdge(nodes, e)
    ensures InDegree(nodes, edges, id) == 0 <==> forall e :: e in edges ==> e.to != id
  {
    if edges != [] {
      var init := edges[..|edges| - 1];
      InDegreeCounts(nodes, init, id);
      assert edges == init + [edges[|edges| - 1]];
    }
  }

  ghost predicate EdgesSilent(g: Graph, codes: set<IssueCode>)
  {
    forall e, x :: e in g.edges && x in EdgeIssues(g.nodes, e) ==> x.code !in codes
  }

  ghost predicate NodesSilent(g: Graph, codes: set<IssueCode>)
  {
    forall n, x :: n in g.nodes && x in NodeIssues(n, InDegree(g.nodes, g.edges, n.id),
      OutDegree(g.nodes, g.edges, n.id)) ==>
      x.code !in codes
  }

  ghost predicate WholeSilent(g: Graph, codes: set<IssueCode>)
  {
    forall x :: x in WholeIssues(g) ==> x.code !in codes
  }

  /** Which part of the check can raise a code. */
  const EDGE_CODES := {EdgeNodeIdEmpty, EdgeSourceNotFound, EdgeTargetNotFound, BasicEventAsParent, TopEventAsChild,
                       GateHasGateChild}
  const NODE_CODES := {TopEventNotRoot, BasicEventHasChildren, InvalidGateType, NotGateChildCountTooHigh,
                       GateChildCountTooLow}
  const WHOLE_CODES := {MissingTopEvent, MultipleTopEvents, CycleDetected}

  lemma CodesByPart(g: Graph, codes: set<IssueCode>)
    ensures codes !! EDGE_CODES ==> EdgesSilent(g, codes)
    ensures codes !! NODE_CODES ==> NodesSilent(g, codes)
    ensures codes !! WHOLE_CODES ==> WholeSilent(g, codes)
  {
    forall e, x | x in EdgeIssues(g.nodes, e) ensures x.code in EDGE_CODES {
    }
    forall n, i, o, x | x in NodeIssues(n, i, o) ensures x.code in NODE_CODES {
    }
    forall x | x in WholeIssues(g) ensures x.code in WHOLE_CODES {
    }
  }

  lemma SilentByParts(g: Graph, codes: set<IssueCode>)
    ensures Silent(g, codes) <==> EdgesSilent(g, codes) && NodesSilent(g, codes) && WholeSilent(g, codes)
  {
    if Silent(g, codes) {
      forall e, x | e in g.edges && x in EdgeIssues(g.nodes, e) ensures x.code !in codes {
        assert EdgeWarrants(g.nodes, g.edges, x) && Warranted(g, x);
      }
      forall n, x | n in g.nodes && x in NodeIssues(n, InDegree(g.nodes, g.edges, n.id),
        OutDegree(g.nodes, g.edges, n.id))
        ensures x.code !in codes
      {
        assert NodeWarrants(g, g.nodes, x) && Warranted(g, x);
      }
      forall x | x in WholeIssues(g) ensures x.code !in codes {
        assert Warranted(g, x);
      }
    }
  }

  lemma SaidByEdges(g: Graph, codes: set<IssueCode>)
    requires codes !! NODE_CODES && codes !! WHOLE_CODES
    ensures Silent(g, codes) <==> EdgesSilent(g, codes)
  {
    SilentByParts(g, codes);
    CodesByPart(g, codes);
  }

  lemma SaidByNodes(g: Graph, codes: set<IssueCode>)
    requires codes !! EDGE_CODES && codes !! WHOLE_CODES
    ensures Silent(g, codes) <==> NodesSilent(g, codes)
  {
    SilentByParts(g, codes);
    CodesByPart(g, codes);
  }

  lemma SaidByRows(g: Graph, codes: set<IssueCode>)
    requires codes !! WHOLE_CODES
    ensures Silent(g, codes) <==> EdgesSilent(g, codes) && NodesSilent(g, codes)
  {
    SilentByParts(g, codes);
    CodesByPart(g, codes);
  }

  lemma SaidByWhole(g: Graph, codes: set<IssueCode>)
    requires codes !! EDGE_CODES && codes !! NODE_CODES
    ensures Silent(g, codes) <==> WholeSilent(g, codes)
  {
    SilentByParts(g, codes);
    CodesByPart(g, codes);
  }

  ghost predicate AllGood(g: Graph)
  {
    forall e :: e in g.edges ==> GoodEdge(g.nodes, e)
  }

  /** With unique keys, looking an identifier up finds the node itself. */
  ghost predicate Found(g: Graph)
  {
    forall n :: n in g.nodes ==> NodeWith(g.nodes, n.id) == Some(n)
  }

  lemma KeyedFound(g: Graph)
    requires Keyed(g)
    ensures Found(g) && (AllGood(g) <==> EndsExist(g))
    ensures forall id :: NodeWith(g.nodes, id).Some? ==>
      NodeWith(g.nodes, id).value in g.nodes && NodeWith(g.nodes, id).value.id == id
  {
    forall id ensures NodeWith(g.nodes, id).Some? <==> HasNode(g.nodes, id) {
      NodeWithExact(g.nodes, id);
    }
    forall n | n in g.nodes ensures NodeWith(g.nodes, n.id) == Some(n) {
      NodeWithExact(g.nodes, n.id);
    }
  }

  const END_CODES := {EdgeNodeIdEmpty, EdgeSourceNotFound, EdgeTargetNotFound}
  const ROOT_CODES := {TopEventAsChild, TopEventNotRoot}
  const LEAF_CODES := {BasicEventAsParent, BasicEventHasChildren}
  const NESTING_CODES := {GateHasGateChild}
  const FILL_CODES := {InvalidGateType, NotGateChildCountTooHigh, GateChildCountTooLow}
  const TOP_CODES := {MissingTopEvent, MultipleTopEvents}
  const CYCLE_CODES := {CycleDetected}

  lemma EndsSaid(g: Graph)
    ensures EdgesSilent(g, END_CODES) <==> AllGood(g)
  {
    if EdgesSilent(g, END_CODES) {
      forall e | e in g.edges ensures GoodEdge(g.nodes, e) {
        assert Blank(e) ==> Issue(NoId, EdgeNodeIdEmpty) in EdgeIssues(g.nodes, e);
        assert !Blank(e) && NodeWith(g.nodes, e.from).None? ==>
          Issue(e.from, EdgeSourceNotFound) in EdgeIssues(g.nodes, e);
        assert !Blank(e) && NodeWith(g.nodes, e.from).Some? && NodeWith(g.nodes, e.to).None? ==>
          Issue(e.to, EdgeTargetNotFound) in EdgeIssues(g.nodes, e);
      }
    }
  }

  lemma RootsSaid(g: Graph)
    requires Found(g) && AllGood(g)
    ensures EdgesSilent(g, ROOT_CODES) ==> TopEventsAreRoots(g)
  {
    if EdgesSilent(g, ROOT_CODES) {
      forall n, e | n in g.nodes && n.kind == TopEvent && e in g.edges ensures e.to != n.id {
        assert e.to == n.id ==> Issue(e.to, TopEventAsChild) in EdgeIssues(g.nodes, e);
      }
    }
  }

  lemma RootsUnsaid(g: Graph)
    requires Keyed(g) && AllGood(g) && TopEventsAreRoots(g)
    ensures EdgesSilent(g, ROOT_CODES) && NodesSilent(g, ROOT_CODES)
  {
    forall e, x | e in g.edges && x in EdgeIssues(g.nodes, e) ensures x.code !in ROOT_CODES {
      NodeWithExact(g.nodes, e.to);
      assert GoodEdge(g.nodes, e);
    }
    forall n, x | n in g.nodes && x in NodeIssues(n, InDegree(g.nodes, g.edges, n.id),
      OutDegree(g.nodes, g.edges, n.id))
      ensures x.code !in ROOT_CODES
    {
      InDegreeCounts(g.nodes, g.edges, n.id);
    }
  }

  lemma LeavesSaid(g: Graph)
    requires Found(g) && AllGood(g)
    ensures EdgesSilent(g, LEAF_CODES) ==> BasicEventsAreLeaves(g)
  {
    if EdgesSilent(g, LEAF_CODES) {
      forall n, e | n in g.nodes && n.kind == BasicEvent && e in g.edges ensures e.from != n.id {
        assert e.from == n.id ==> Issue(e.from, BasicEventAsParent) in EdgeIssues(g.nodes, e);
      }
    }
  }

  lemma LeavesUnsaid(g: Graph)
    requires Keyed(g) && AllGood(g) && BasicEventsAreLeaves(g)
    ensures EdgesSilent(g, LEAF_CODES) && NodesSilent(g, LEAF_CODES)
  {
    forall e, x | e in g.edges && x in EdgeIssues(g.nodes, e) ensures x.code !in LEAF_CODES {
      NodeWithExact(g.nodes, e.from);
      assert GoodEdge(g.nodes, e);
    }
    forall n, x | n in g.nodes && x in NodeIssues(n, InDegree(g.nodes, g.edges, n.id),
      OutDegree(g.nodes, g.edges, n.id))
      ensures x.code !in LEAF_CODES
    {
      OutDegreeCounts(g.nodes, g.edges, n.id);
    }
  }

  lemma NestingSaid(g: Graph)
    requires Found(g) && AllGood(g)
    ensures EdgesSilent(g, NESTING_CODES) ==> NoGateBelowGate(g)
  {
    if EdgesSilent(g, NESTING_CODES) {
      forall m, n, e | m in g.nodes && n in g.nodes && e in g.edges && m.kind == Gate && n.kind == Gate
        ensures !(e.from == m.id && e.to == n.id)
      {
        assert e.from == m.id && e.to == n.id ==> Issue(e.to, GateHasGateChild) in EdgeIssues(g.nodes, e);
      }
    }
  }

  lemma NestingUnsaid(g: Graph)
    requires Keyed(g) && AllGood(g) && NoGateBelowGate(g)
    ensures EdgesSilent(g, NESTING_CODES)
  {
    forall e, x | e in g.edges && x in EdgeIssues(g.nodes, e) ensures x.code !in NESTING_CODES {
      NodeWithExact(g.nodes, e.from);
      NodeWithExact(g.nodes, e.to);
      assert GoodEdge(g.nodes, e);
    }
  }

  /** One gate is filled exactly when none of the fill codes is raised at it. */
  lemma FillSaid(n: Node, inDegree: nat, outDegree: nat, edges: seq<Edge>)
    requires n.kind == Gate && (outDegree >= 2 <==> TwoFrom(edges, n.id))
    ensures (forall x :: x in NodeIssues(n, inDegree, outDegree) ==> x.code !in FILL_CODES)
            <==> n.gate.Some? && (n.gate.value == Not <==> !TwoFrom(edges, n.id))
  {
    var issues := NodeIssues(n, inDegree, outDegree);
    assert n.gate.None? ==> Issue(n.id, InvalidGateType) in issues;
    assert n.gate == Some(Not) && outDegree >= 2 ==> Issue(n.id, NotGateChildCountTooHigh) in issues;
    assert n.gate.Some? && n.gate != Some(Not) && outDegree < 2 ==> Issue(n.id, GateChildCountTooLow) in issues;
  }

  lemma FillsSaid(g: Graph)
    requires AllGood(g)
    ensures NodesSilent(g, FILL_CODES) <==> GatesAreFilled(g)
  {
    forall n | n in g.nodes && n.kind == Gate
      ensures (forall x :: x in NodeIssues(n, InDegree(g.nodes, g.edges, n.id), OutDegree(g.nodes, g.edges, n.id)) ==>
                 x.code !in FILL_CODES)
              <==> n.gate.Some? && (n.gate.value == Not <==> !TwoFrom(g.edges, n.id))
    {
      OutDegreeCounts(g.nodes, g.edges, n.id);
      FillSaid(n, InDegree(g.nodes, g.edges, n.id), OutDegree(g.nodes, g.edges, n.id), g.edges);
    }
  }

  /** Each group of codes says exactly what its rule says. */
  lemma EndRuleExact(g: Graph)
    requires Keyed(g)
    ensures Silent(g, END_CODES) <==> EndsExist(g)
  {
    KeyedFound(g);
    EndsSaid(g);
    SaidByEdges(g, END_CODES);
  }

  lemma RootRuleExact(g: Graph)
    requires Keyed(g) && EndsExist(g)
    ensures Silent(g, ROOT_CODES) <==> TopEventsAreRoots(g)
  {
    KeyedFound(g);
    RootsSaid(g);
    SaidByRows(g, ROOT_CODES);
    if TopEventsAreRoots(g) {
      RootsUnsaid(g);
    }
  }

  lemma LeafRuleExact(g: Graph)
    requires Keyed(g) && EndsExist(g)
    ensures Silent(g, LEAF_CODES) <==> BasicEventsAreLeaves(g)
  {
    KeyedFound(g);
    LeavesSaid(g);
    SaidByRows(g, LEAF_CODES);
    if BasicEventsAreLeaves(g) {
      LeavesUnsaid(g);
    }
  }

  lemma NestingRuleExact(g: Graph)
    requires Keyed(g) && EndsExist(g)
    ensures Silent(g, NESTING_CODES) <==> NoGateBelowGate(g)
  {
    KeyedFound(g);
    NestingSaid(g);
    SaidByEdges(g, NESTING_CODES);
    if NoGateBelowGate(g) {
      NestingUnsaid(g);
    }
  }

  lemma FillRuleExact(g: Graph)
    requires Keyed(g) && EndsExist(g)
    ensures Silent(g, FILL_CODES) <==> GatesAreFilled(g)
  {
    KeyedFound(g);
    FillsSaid(g);
    SaidByNodes(g, FILL_CODES);
  }

  lemma TopRuleExact(g: Graph)
    ensures Silent(g, TOP_CODES) <==> OneTopEvent(g.nodes)
  {
    TopEventsCount(g.nodes);
    SaidByWhole(g, TOP_CODES);
    assert TopEvents(g.nodes) == 0 ==> Issue(NoId, MissingTopEvent) in WholeIssues(g);
    assert TopEvents(g.nodes) > 1 ==> Issue(NoId, MultipleTopEvents) in WholeIssues(g);
  }

  lemma CycleRuleExact(g: Graph)
    ensures Silent(g, CYCLE_CODES) <==> Acyclic(ArcsOf(g.edges))
  {
    SaidByWhole(g, CYCLE_CODES);
    assert !Acyclic(ArcsOf(g.edges)) ==> Issue(NoId, CycleDetected) in WholeIssues(g);
  }

  lemma FatalCodesByRule(g: Graph)
    ensures PassesPermissive(g) <==>
      Silent(g, END_CODES) && Silent(g, ROOT_CODES) && Silent(g, TOP_CODES) && Silent(g, CYCLE_CODES)
    ensures PassesStrict(g) <==>
      PassesPermissive(g) && Silent(g, LEAF_CODES) && Silent(g, NESTING_CODES) && Silent(g, FILL_CODES)
  {
    assert FATAL_CODES == END_CODES + ROOT_CODES + TOP_CODES + CYCLE_CODES;
    forall c: IssueCode
      ensures Blocks(c) && (c in FATAL_CODES || c in LEAF_CODES || c in NESTING_CODES || c in FILL_CODES)
    {
    }
  }

  /** The permissive gate lets a graph through exactly when nothing fatal is wrong with it. */
  lemma PermissiveGateExact(g: Graph)
    requires Keyed(g)
    ensures PassesPermissive(g) <==> FatalFree(g)
  {
    FatalCodesByRule(g);
    EndRuleExact(g);
    TopRuleExact(g);
    CycleRuleExact(g);
    if EndsExist(g) {
      RootRuleExact(g);
    }
  }

  /** The strict gate lets a graph through exactly when it is well formed. */
  lemma StrictGateExact(g: Graph)
    requires Keyed(g)
    ensures PassesStrict(g) <==> WellFormed(g)
  {
    FatalCodesByRule(g);
    PermissiveGateExact(g);
    if EndsExist(g) {
      LeafRuleExact(g);
      NestingRuleExact(g);
      FillRuleExact(g);
    }
  }

  /** What the strict gate accepts, the permissive gate accepts. */
  lemma StrictImpliesPermissive(g: Graph)
    requires PassesStrict(g)
    ensures PassesPermissive(g)
  {
    FatalCodesByRule(g);
  }

  // ---------- which issue is reported for which node ----------

  ghost predicate OfKind(nodes: seq<Node>, id: Id, kind: NodeKind)
  {
    exists n :: n in nodes && n.id == id && n.kind == kind
  }

  /** Both ends are set and are nodes. */
  ghost predicate Sits(nodes: seq<Node>, e: Edge)
  {
    e.from != NoId && e.to != NoId && HasNode(nodes, e.from) && HasNode(nodes, e.to)
  }

  /** What an edge must be for an issue to be reported on it. */
  ghost predicate EdgeIssueHolds(nodes: seq<Node>, e: Edge, x: Issue)
  {
    match x.code
    case EdgeNodeIdEmpty => (e.from == NoId || e.to == NoId) && x.nodeId == NoId
    case EdgeSourceNotFound => e.from != NoId && e.to != NoId && !HasNode(nodes, e.from) && x.nodeId == e.from
    case EdgeTargetNotFound =>
      e.from != NoId && e.to != NoId && HasNode(nodes, e.from) && !HasNode(nodes, e.to) && x.nodeId == e.to
    case BasicEventAsParent => Sits(nodes, e) && OfKind(nodes, e.from, BasicEvent) && x.nodeId == e.from
    case TopEventAsChild => Sits(nodes, e) && OfKind(nodes, e.to, TopEvent) && x.nodeId == e.to
    case GateHasGateChild =>
      Sits(nodes, e) && OfKind(nodes, e.from, Gate) && OfKind(nodes, e.to, Gate) && x.nodeId == e.to
    case _ => false
  }

  lemma FoundOfKind(nodes: seq<Node>, id: Id)
    requires DistinctNodes(nodes)
    ensures NodeWith(nodes, id).Some? <==> HasNode(nodes, id)
    ensures forall kind ::
      OfKind(nodes, id, kind) <==> NodeWith(nodes, id).Some? && NodeWith(nodes, id).value.kind == kind
  {
    NodeWithExact(nodes, id);
  }

  lemma EdgeIssuesMean(g: Graph, e: Edge, x: Issue)
    requires Keyed(g)
    ensures x in EdgeIssues(g.nodes, e) <==> EdgeIssueHolds(g.nodes, e, x)
  {
    FoundOfKind(g.nodes, e.from);
    FoundOfKind(g.nodes, e.to);
  }

  /** What a node must be for an issue to be reported on it; degrees count edges whose two ends are nodes. */
  ghost predicate NodeIssueHolds(g: Graph, n: Node, x: Issue)
  {
    var into, out := InDegree(g.nodes, g.edges, n.id), OutDegree(g.nodes, g.edges, n.id);
    x.nodeId == n.id &&
    match x.code
    case TopEventNotRoot => n.kind == TopEvent && into > 0
    case BasicEventHasChildren => n.kind == BasicEvent && out > 0
    case InvalidGateType => n.kind == Gate && n.gate.None?
    case NotGateChildCountTooHigh => n.kind == Gate && n.gate == Some(Not) && out > 1
    case GateChildCountTooLow => n.kind == Gate && n.gate in {Some(And), Some(Or)} && out < 2
    case _ => false
  }

  ghost predicate WholeIssueHolds(g: Graph, x: Issue)
  {
    x.nodeId == NoId &&
    match x.code
    case MissingTopEvent => forall n :: n in g.nodes ==> n.kind != TopEvent
    case MultipleTopEvents => TwoTopEvents(g.nodes)
    case CycleDetected => !Acyclic(ArcsOf(g.edges))
    case _ => false
  }

  /** Exactly which issues are reported, and for which node. */
  lemma IssueReportedIff(g: Graph, x: Issue)
    requires Keyed(g)
    ensures Warranted(g, x) <==>
            || (exists e :: e in g.edges && EdgeIssueHolds(g.nodes, e, x))
            || (exists n :: n in g.nodes && NodeIssueHolds(g, n, x))
            || WholeIssueHolds(g, x)
  {
    forall e | e in g.edges ensures x in EdgeIssues(g.nodes, e) <==> EdgeIssueHolds(g.nodes, e, x) {
      EdgeIssuesMean(g, e, x);
    }
    forall n | n in g.nodes
      ensures x in NodeIssues(n, InDegree(g.nodes, g.edges, n.id), OutDegree(g.nodes, g.edges, n.id))
              <==> NodeIssueHolds(g, n, x)
    {
    }
    WholeIssuesMean(g, x);
  }

  lemma WholeIssuesMean(g: Graph, x: Issue)
    ensures x in WholeIssues(g) <==> WholeIssueHolds(g, x)
  {
    TopEventsCount(g.nodes);
    assert SomeTopEvent(g.nodes) <==> exists n :: n in g.nodes && n.kind == TopEvent by {
      if n :| n in g.nodes && n.kind == TopEvent {
        var i :| 0 <= i < |g.nodes| && g.nodes[i] == n;
      }
    }
  }
}
