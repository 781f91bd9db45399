/** Optimistic concurrency over the stored graph as a state machine: readers go through two caches that may be
    stale and read nodes and edges separately; writers replace the graph under a test-and-set on the revision. */
module StoreProtocol {
  import opened Basics
  import opened FaultTree

  /** A graph together with the revision it was handed out with. */
  datatype Version = Version(revision: nat, graph: Graph)

  /** How far a session has come with reading the project and its graph. */
  datatype Phase =
    | Idle
    | Loaded(revision: nat)                    // project row read, not yet cached
    | Knows(revision: nat)                     // has the project
    | HasNodes(revision: nat, nodes: seq<Node>)
    | HasGraph(version: Version)               // both reads done, not yet cached

  datatype System = System(
    revision: nat, graph: Graph,       // the stored rows
    projectCache: Option<nat>,         // the revision inside the cached project
    graphCache: Option<Version>,
    phases: map<nat, Phase>,
    handed: set<(nat, Version)>,       // every version a session was ever handed
    committed: map<nat, Graph>,        // the graph committed at each revision
    bases: map<nat, Graph>)            // what the writer of a revision had been handed as its base

  /** One atomic step; cached tells whether a cache write succeeds. A Write is based on a version the
      session was handed, a BlindWrite on a revision from anywhere. */
  datatype Event =
    | FindCachedProject(session: nat)
    | LoadProject(session: nat)
    | CacheProject(session: nat, cached: bool)
    | FindCachedGraph(session: nat)
    | ReadNodes(session: nat)
    | ReadEdges(session: nat)
    | CacheGraph(session: nat, cached: bool)
    | Abort(session: nat)
    | Write(session: nat, base: Version, result: Graph)
    | BlindWrite(expected: int, result: Graph)
    | DropProjectCache
    | DropGraphCache

  function PhaseOf(s: System, i: nat): Phase
  {
    if i in s.phases then s.phases[i] else Idle
  }

  function Move(s: System, i: nat, p: Phase): System
  {
    s.(phases := s.phases[i := p])
  }

  function HandOut(s: System, i: nat, v: Version): System
  {
    s.(phases := s.phases[i := Idle], handed := s.handed + {(i, v)})
  }

  /** All rows replaced and the revision raised, when the revision is still the expected one. */
  function Replace(s: System, expected: int, result: Graph): System
  {
    if s.revision != expected then s
    else s.(revision := s.revision + 1, graph := result, committed := s.committed[s.revision + 1 := result])
  }

  function Next(s: System, e: Event): System
  {
    match e
    case FindCachedProject(i) =>
      if PhaseOf(s, i) == Idle && s.projectCache.Some? then Move(s, i, Knows(s.projectCache.value)) else s
    case LoadProject(i) => if PhaseOf(s, i) == Idle then Move(s, i, Loaded(s.revision)) else s
    case CacheProject(i, cached) =>
      if !PhaseOf(s, i).Loaded? then s
      else
        var r := PhaseOf(s, i).revision;
        Move(if cached then s.(projectCache := Some(r)) else s, i, Knows(r))
    case FindCachedGraph(i) =>
      if PhaseOf(s, i).Knows? && s.graphCache.Some? && s.graphCache.value.revision == PhaseOf(s, i).revision
      then HandOut(s, i, s.graphCache.value) else s
    case ReadNodes(i) =>
      if PhaseOf(s, i).Knows? then Move(s, i, HasNodes(PhaseOf(s, i).revision, s.graph.nodes)) else s
    case ReadEdges(i) =>
      (match PhaseOf(s, i)
       case HasNodes(r, nodes) => Move(s, i, HasGraph(Version(r, Graph(nodes, s.graph.edges))))
       case _ => s)
    case CacheGraph(i, cached) =>
      if !PhaseOf(s, i).HasGraph? then s
      else
        var v := PhaseOf(s, i).version;
        HandOut(if cached then s.(graphCache := Some(v)) else s, i, v)
    case Abort(i) => Move(s, i, Idle)
    case Write(i, base, result) =>
      if (i, base) !in s.handed || s.revision != base.revision then s
      else Replace(s, base.revision, result).(handed := s.handed + {(i, Version(base.revision + 1, result))},
                                              bases := s.bases[base.revision + 1 := base.graph])
    case BlindWrite(expected, result) => Replace(s, expected, result)
    case DropProjectCache => s.(projectCache := None)
    case DropGraphCache => s.(graphCache := None)
  }

  function RunAll(s: System, es: seq<Event>): System
    decreases |es|
  {
    if es == [] then s else Next(RunAll(s, es[..|es| - 1]), es[|es| - 1])
  }

  lemma RunSnoc(s: System, es: seq<Event>, e: Event)
    ensures RunAll(s, es + [e]) == Next(RunAll(s, es), e)
  {
    assert (es + [e])[..|es|] == es;
  }

  lemma {:induction false} RunSplits(s: System, es: seq<Event>, more: seq<Event>)
    ensures RunAll(s, es + more) == RunAll(RunAll(s, es), more)
    decreases |more|
  {
    if more == [] {
      assert es + more == es;
    } else {
      RunSplits(s, es, more[..|more| - 1]);
      assert (es + more)[..|es + more| - 1] == es + more[..|more| - 1];
    }
  }

  predicate Initial(s: System)
  {
    s.projectCache == None && s.graphCache == None && s.phases == map[] && s.handed == {} &&
    s.committed == map[s.revision := s.graph] && s.bases == map[]
  }
}
