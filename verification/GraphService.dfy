/** The service and repository code that reads and writes the stored graph: every uninterrupted call is
    a run of the store protocol. */
module GraphService {
  import opened Basics
  import opened FaultTree
  import opened StoreProtocol

  /** Which best-effort steps succeed during one call. */
  datatype Luck = Luck(projectCached: bool, graphCached: bool, committed: bool, projectDropped: bool,
      graphDropped: bool)

  datatype Saved = Saved(revision: nat) | VersionConflict | StorageFailure

  function FindEvents(s: System, i: nat, useCache: bool, cached: bool): seq<Event>
  {
    if useCache && s.projectCache.Some? then [FindCachedProject(i)]
    else [LoadProject(i), CacheProject(i, useCache && cached)]
  }

  /** The revision a call sees: the cached one when there is one. */
  function SeenRevision(s: System, useCache: bool): nat
  {
    if useCache && s.projectCache.Some? then s.projectCache.value else s.revision
  }

  function GraphEvents(s: System, i: nat, r: nat, useCache: bool, cached: bool): seq<Event>
  {
    if useCache && s.graphCache.Some? && s.graphCache.value.revision == r then [FindCachedGraph(i)]
    else [ReadNodes(i), ReadEdges(i), CacheGraph(i, useCache && cached)]
  }

  /** With a base, a write of a version the session was handed; without one, a write at any revision. */
  function WriteEvent(i: nat, base: Option<Version>, expected: int, result: Graph): Event
  {
    if base.Some? then Write(i, base.value, result) else BlindWrite(expected, result)
  }

  /** The project's cache entry is dropped inside the transaction, once the revision has matched. */
  function TransactionEvents(s: System, e: Event, expected: int, useCache: bool, luck: Luck): seq<Event>
  {
    if s.revision != expected then []
    else (if useCache && luck.projectDropped then [DropProjectCache] else []) + if luck.committed then [e] else []
  }

  function TransactionOutcome(s: System, expected: int, luck: Luck): Saved
  {
    if s.revision != expected then VersionConflict else if luck.committed then Saved(s.revision + 1) else StorageFailure
  }

  /** The revision a commit tests: the expected one, or the one just seen when none is expected. */
  function BaseRevision(seen: nat, expected: int): int
  {
    if expected >= 0 then expected else seen
  }

  lemma RunOne(s: System, e: Event)
    ensures RunAll(s, [e]) == Next(s, e)
  {
    assert [e][..0] == [];
  }

  class FaultTreeService {
    const useProjectCache: bool
    const useGraphCache: bool
    var revision: nat
    var graph: Graph
    var projectCache: Option<nat>
    var graphCache: Option<Version>
    ghost var phases: map<nat, Phase>
    ghost var handed: set<(nat, Version)>
    ghost var committed: map<nat, Graph>
    ghost var bases: map<nat, Graph>

    constructor (graph: Graph, revision: nat, useProjectCache: bool, useGraphCache: bool)
      ensures Initial(View()) && View().graph == graph && View().revision == revision
      ensures this.useProjectCache == useProjectCache && this.useGraphCache == useGraphCache
    {
      this.useProjectCache, this.useGraphCache := useProjectCache, useGraphCache;
      this.graph, this.revision, projectCache, graphCache := graph, revision, None, None;
      phases, handed, committed, bases := map[], {}, map[revision := graph], map[];
    }

    ghost function View(): System
      reads this
    {
      System(revision, graph, projectCache, graphCache, phases, handed, committed, bases)
    }

    method FindByID(i: nat, cached: bool) returns (r: nat)
      requires PhaseOf(View(), i) == Idle
      modifies this`projectCache, this`phases
      ensures View() == RunAll(old(View()), FindEvents(old(View()), i, useProjectCache, cached))
      ensures r == SeenRevision(old(View()), useProjectCache) && PhaseOf(View(), i) == Knows(r)
      ensures projectCache == if useProjectCache && cached && old(projectCache).None? then Some(revision)
              else old(projectCache)
    {
      ghost var before := View();
      if useProjectCache && projectCache.Some? {
        r := projectCache.value;
        phases := phases[i := Knows(r)];
        RunOne(before, FindCachedProject(i));
        return;
      }
      r := revision;
      phases := phases[i := Loaded(r)];
      RunOne(before, LoadProject(i));
      RunSnoc(before, [LoadProject(i)], CacheProject(i, useProjectCache && cached));
      assert [LoadProject(i)] + [CacheProject(i, useProjectCache && cached)]
        == FindEvents(before, i, useProjectCache, cached);
      if useProjectCache && cached {
        projectCache := Some(r);
      }
      phases := phases[i := Knows(r)];
    }

    /** The nodes and the edges, by two separate queries. */
    method GetFaultTreeGraph(i: nat, r: nat) returns (g: Graph)
      requires PhaseOf(View(), i) == Knows(r)
      modifies this`phases
      ensures View() == RunAll(old(View()), [ReadNodes(i), ReadEdges(i)])
      ensures g == graph && PhaseOf(View(), i) == HasGraph(Version(r, g))
    {
      ghost var before := View();
      RunOne(before, ReadNodes(i));
      RunSnoc(before, [ReadNodes(i)], ReadEdges(i));
      assert [ReadNodes(i)] + [ReadEdges(i)] == [ReadNodes(i), ReadEdges(i)];
      var nodes := graph.nodes;
      phases := phases[i := HasNodes(r, nodes)];
      var edges := graph.edges;
      g := Graph(nodes, edges);
      phases := phases[i := HasGraph(Version(r, g))];
    }

    /** The part of GetGraph after the project is known: the cached graph when its revision is the
        project's, the stored rows otherwise. */
    method GetKnownGraph(i: nat, r: nat, cached: bool) returns (g: Graph)
      requires PhaseOf(View(), i) == Knows(r)
      modifies this`graphCache, this`phases, this`handed
      ensures g == if useGraphCache && old(graphCache).Some? && old(graphCache).value.revision == r
                   then old(graphCache).value.graph else graph
      ensures graphCache == if useGraphCache && cached &&
              !(old(graphCache).Some? && old(graphCache).value.revision == r)
                            then Some(Version(r, graph)) else old(graphCache)
      ensures View() == RunAll(old(View()), GraphEvents(old(View()), i, r, useGraphCache, cached))
      ensures (i, Version(r, g)) in handed && PhaseOf(View(), i) == Idle
    {
      ghost var before := View();
      if useGraphCache && graphCache.Some? && graphCache.value.revision == r {
        g := graphCache.value.graph;
        phases, handed := phases[i := Idle], handed + {(i, Version(r, g))};
        RunOne(before, FindCachedGraph(i));
        return;
      }
      g := GetFaultTreeGraph(i, r);
      RunSnoc(before, [ReadNodes(i), ReadEdges(i)], CacheGraph(i, useGraphCache && cached));
      assert [ReadNodes(i), ReadEdges(i)] + [CacheGraph(i, useGraphCache && cached)]
        == GraphEvents(before, i, r, useGraphCache, cached);
      if useGraphCache && cached {
        graphCache := Some(Version(r, g));
      }
      phases, handed := phases[i := Idle], handed + {(i, Version(r, g))};
    }

    method GetGraph(i: nat, luck: Luck) returns (g: Graph, r: nat)
      requires PhaseOf(View(), i) == Idle
      modifies this`projectCache, this`graphCache, this`phases, this`handed
      ensures r == if useProjectCache && old(projectCache).Some? then old(projectCache).value else revision
      ensures g == if useGraphCache && old(graphCache).Some? && old(graphCache).value.revision == r
                   then old(graphCache).value.graph else graph
      ensures graphCache == if useGraphCache && luck.graphCached &&
              !(old(graphCache).Some? && old(graphCache).value.revision == r)
                            then Some(Version(r, graph)) else old(graphCache)
      ensures View() == RunAll(old(View()), FindEvents(old(View()), i, useProjectCache, luck.projectCached)
                                            + GraphEvents(old(View()), i, r, useGraphCache, luck.graphCached))
      ensures (i, Version(r, g)) in handed && PhaseOf(View(), i) == Idle
    {
      ghost var before := View();
      r := FindByID(i, luck.projectCached);
      RunSplits(before, FindEvents(before, i, useProjectCache, luck.projectCached),
        GraphEvents(before, i, r, useGraphCache, luck.graphCached));
      g := GetKnownGraph(i, r, luck.graphCached);
    }

    method InvalidateProjectDetailCache(dropped: bool)
      modifies this`projectCache
      ensures View() == RunAll(old(View()), if useProjectCache && dropped then [DropProjectCache] else [])
    {
      RunOne(View(), DropProjectCache);
      if useProjectCache && dropped {
        projectCache := None;
      }
    }

    method InvalidateGraphCache(dropped: bool)
      modifies this`graphCache
      ensures View() == RunAll(old(View()), if dropped then [DropGraphCache] else [])
    {
      RunOne(View(), DropGraphCache);
      if dropped {
        graphCache := None;
      }
    }

    /** The session was handed the base, if there is one, with the expected revision. */
    ghost predicate MayWrite(i: nat, base: Option<Version>, expected: int)
      reads this
    {
      base.Some? ==> (i, base.value) in handed && base.value.revision == expected
    }

    /** A save that went through stores the result under the next revision; any other leaves the rows alone. */
    predicate Stores(graph0: Graph, revision0: nat, saved: Saved, result: Graph)
      reads this
    {
      if saved.Saved? then graph == result && revision == revision0 + 1 == saved.revision
      else graph == graph0 && revision == revision0
    }

    /** All rows replaced and the revision raised. */
    method CommitRows(i: nat, ghost base: Option<Version>, result: Graph)
      requires MayWrite(i, base, revision)
      modifies this`revision, this`graph, this`committed, this`bases, this`handed
      ensures View() == RunAll(old(View()), [WriteEvent(i, base, old(revision), result)])
      ensures revision == old(revision) + 1 && graph == result
    {
      RunOne(View(), WriteEvent(i, base, revision, result));
      revision, graph := revision + 1, result;
      committed := committed[revision := result];
      if base.Some? {
        bases, handed := bases[revision := base.value.graph], handed + {(i, Version(revision, result))};
      }
    }

    /** Replaces the rows if the revision is the expected one. */
    method Transaction(i: nat, ghost base: Option<Version>, expected: int, result: Graph, luck: Luck)
        returns (saved: Saved)
      requires MayWrite(i, base, expected)
      modifies this
      ensures View() == RunAll(old(View()),
              TransactionEvents(old(View()), WriteEvent(i, base, expected, result), expected, useProjectCache, luck))
      ensures saved == TransactionOutcome(old(View()), expected, luck)
      ensures saved == if old(revision) != expected then VersionConflict
                       else if luck.committed then Saved(old(revision) + 1) else StorageFailure
      ensures Stores(old(graph), old(revision), saved, result)
      ensures projectCache == if old(revision) == expected && useProjectCache && luck.projectDropped then None
                              else old(projectCache)
      ensures graphCache == old(graphCache)
    {
      if revision != expected {
        return VersionConflict;
      }
      ghost var before := View();
      ghost var drops := if useProjectCache && luck.projectDropped then [DropProjectCache] else [];
      InvalidateProjectDetailCache(luck.projectDropped);
      if !luck.committed {
        assert drops + [] == drops;
        return StorageFailure;
      }
      RunSplits(before, drops, [WriteEvent(i, base, expected, result)]);
      CommitRows(i, base, result);
      saved := Saved(revision);
    }

    /** A save drops the cached graph afterwards. */
    method SaveGraph(i: nat, ghost base: Option<Version>, expected: int, result: Graph, luck: Luck)
        returns (saved: Saved)
      requires MayWrite(i, base, expected)
      modifies this
      ensures saved == TransactionOutcome(old(View()), expected, luck)
      ensures saved == if old(revision) != expected then VersionConflict
                       else if luck.committed then Saved(old(revision) + 1) else StorageFailure
      ensures Stores(old(graph), old(revision), saved, result)
      ensures graphCache == if saved.Saved? && useGraphCache && luck.graphDropped then None else old(graphCache)
      ensures View() == RunAll(old(View()),
              TransactionEvents(old(View()), WriteEvent(i, base, expected, result), expected, useProjectCache, luck)
              + if saved.Saved? && useGraphCache && luck.graphDropped then [DropGraphCache] else [])
    {
      ghost var before := View();
      ghost var es := TransactionEvents(before, WriteEvent(i, base, expected, result), expected, useProjectCache, luck);
      saved := Transaction(i, base, expected, result, luck);
      assert View() == RunAll(before, es);
      RunSplits(before, es, if saved.Saved? && useGraphCache && luck.graphDropped then [DropGraphCache] else []);
      if saved.Saved? {
        InvalidateGraphCache(useGraphCache && luck.graphDropped);
      }
    }

    /** The executor's commit looks at the project first, perhaps in the cache. */
    method PersistWithExpectedRevision(i: nat, ghost base: Option<Version>, expected: int, result: Graph, luck: Luck)
        returns (saved: Saved)
      requires MayWrite(i, base, expected) && PhaseOf(View(), i) == Idle
      modifies this
      ensures var seen := SeenRevision(old(View()), useProjectCache);
              saved == if seen != BaseRevision(seen, expected) then VersionConflict
                else TransactionOutcome(old(View()), seen, luck)
      ensures Stores(old(graph), old(revision), saved, result)
      ensures graphCache == old(graphCache)
      ensures View() == RunAll(old(View()),
              PersistEvents(old(View()), i, base, expected, result, useProjectCache, luck))
    {
      ghost var before := View();
      ghost var es := FindEvents(before, i, useProjectCache, luck.projectCached);
      FindKeepsRows(before, i, useProjectCache, luck.projectCached);
      var seen := FindByID(i, luck.projectCached);
      RunSnoc(before, es, Abort(i));
      es := es + [Abort(i)];
      phases := phases[i := Idle];
      assert View() == RunAll(before, es);
      if seen != BaseRevision(seen, expected) {
        assert es + [] == es;
        return VersionConflict;
      }
      RunSplits(before, es, TransactionEvents(before, WriteEvent(i, base, seen, result), seen, useProjectCache, luck));
      saved := Transaction(i, base, seen, result, luck);
    }

    /** A commit that went through drops the cached graph. */
    method CommitSnapshot(i: nat, ghost base: Option<Version>, expected: int, result: Graph, luck: Luck)
        returns (saved: Saved)
      requires MayWrite(i, base, expected) && PhaseOf(View(), i) == Idle
      modifies this
      ensures var seen := SeenRevision(old(View()), useProjectCache);
              saved == if seen != BaseRevision(seen, expected) then VersionConflict
                else TransactionOutcome(old(View()), seen, luck)
      ensures Stores(old(graph), old(revision), saved, result)
      ensures graphCache == if saved.Saved? && luck.graphDropped then None else old(graphCache)
      ensures View() == RunAll(old(View()), PersistEvents(old(View()), i, base, expected, result, useProjectCache, luck)
                                            + if saved.Saved? && luck.graphDropped then [DropGraphCache] else [])
    {
      ghost var before := View();
      ghost var es := PersistEvents(before, i, base, expected, result, useProjectCache, luck);
      saved := PersistWithExpectedRevision(i, base, expected, result, luck);
      assert View() == RunAll(before, es);
      RunSplits(before, es, if saved.Saved? && luck.graphDropped then [DropGraphCache] else []);
      if saved.Saved? {
        InvalidateGraphCache(luck.graphDropped);
      }
    }
  }

  function PersistEvents(s: System, i: nat, base: Option<Version>, expected: int, result: Graph, useCache: bool,
      luck: Luck): seq<Event>
  {
    var seen := SeenRevision(s, useCache);
    FindEvents(s, i, useCache, luck.projectCached) + [Abort(i)]
    + if seen != BaseRevision(seen, expected) then []
      else TransactionEvents(s, WriteEvent(i, base, seen, result), seen, useCache, luck)
  }

  lemma FindKeepsRows(s: System, i: nat, useCache: bool, cached: bool)
    ensures var s' := RunAll(s, FindEvents(s, i, useCache, cached)); s'.revision == s.revision && s'.handed == s.handed
  {
    RunOne(s, FindCachedProject(i));
    RunOne(s, LoadProject(i));
    var last := CacheProject(i, useCache && cached);
    RunSnoc(s, [LoadProject(i)], last);
    assert [LoadProject(i)] + [last] == [LoadProject(i), last];
  }
}
