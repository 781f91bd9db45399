/** Safety over every interleaving of readers and writers of the stored graph: what the caches, the
    sessions and the history hold, and which writes succeed. */
module StoreRuns {
  import opened Basics
  import opened FaultTree
  import opened StoreProtocol

  // ---------- what every step keeps ----------

  /** Not from the future, and exact when it claims to be current. */
  predicate Fits(s: System, v: Version)
  {
    v.revision <= s.revision && (v.revision == s.revision ==> v.graph == s.graph)
  }

  predicate PhaseFits(s: System, p: Phase)
  {
    match p
    case Idle => true
    case Loaded(r) => r <= s.revision
    case Knows(r) => r <= s.revision
    case HasNodes(r, nodes) => r <= s.revision && (r == s.revision ==> nodes == s.graph.nodes)
    case HasGraph(v) => Fits(s, v)
  }

  ghost predicate CachesFit(s: System)
  {
    (s.projectCache.Some? ==> s.projectCache.value <= s.revision) &&
      (s.graphCache.Some? ==> Fits(s, s.graphCache.value))
  }

  ghost predicate SessionsFit(s: System)
  {
    (forall i :: i in s.phases ==> PhaseFits(s, s.phases[i])) && (forall i, v :: (i, v) in s.handed ==> Fits(s, v))
  }

  ghost predicate HistoryFits(s: System)
  {
    && s.revision in s.committed && s.committed[s.revision] == s.graph
    && (forall r :: r in s.committed ==> r <= s.revision)
    && (forall r :: r in s.bases ==> 0 < r <= s.revision && r - 1 in s.committed && s.bases[r] == s.committed[r - 1])
  }

  ghost predicate Coherent(s: System)
  {
    CachesFit(s) && SessionsFit(s) && HistoryFits(s)
  }

  lemma ReadStepKeepsRows(s: System, e: Event)
    requires !e.Write? && !e.BlindWrite?
    ensures Next(s, e).revision == s.revision && Next(s, e).graph == s.graph && Next(s, e).committed == s.committed &&
            Next(s, e).bases == s.bases
  {
  }

  lemma ReadStepKeepsCoherent(s: System, e: Event)
    requires Coherent(s) && !e.Write? && !e.BlindWrite?
    ensures Coherent(Next(s, e))
  {
    ReadStepKeepsRows(s, e);
    assert forall i :: PhaseFits(s, PhaseOf(s, i));
  }

  lemma WriteStepKeepsCoherent(s: System, e: Event)
    requires Coherent(s) && (e.Write? || e.BlindWrite?)
    ensures Coherent(Next(s, e))
  {
  }

  lemma {:induction false} RunKeepsCoherent(s: System, es: seq<Event>)
    requires Coherent(s)
    ensures Coherent(RunAll(s, es))
    decreases |es|
  {
    if es != [] {
      var before, e := RunAll(s, es[..|es| - 1]), es[|es| - 1];
      RunKeepsCoherent(s, es[..|es| - 1]);
      if e.Write? || e.BlindWrite? {
        WriteStepKeepsCoherent(before, e);
      } else {
        ReadStepKeepsCoherent(before, e);
      }
    }
  }

  /** No lost update: in any interleaving, when a session's write at a version it was handed succeeds,
      that version is exactly what was committed at its revision, and nothing was committed since. */
  lemma SuccessfulWriteSawTheLatest(s: System, es: seq<Event>, i: nat, base: Version)
    requires Initial(s)
    requires var now := RunAll(s, es); (i, base) in now.handed && base.revision == now.revision
    ensures var now := RunAll(s, es);
            base.revision in now.committed && now.committed[base.revision] == base.graph == now.graph
  {
    RunKeepsCoherent(s, es);
  }

  /** Hence every revision written from a handed version is an edit of the revision before it. */
  lemma HistoryIsAChain(s: System, es: seq<Event>, r: nat)
    requires Initial(s) && r in RunAll(s, es).bases
    ensures var now := RunAll(s, es); r > 0 && r - 1 in now.committed && now.bases[r] == now.committed[r - 1]
  {
    RunKeepsCoherent(s, es);
  }

  lemma StepKeepsCommitted(s: System, e: Event)
    requires Coherent(s)
    ensures forall r :: r in s.committed ==> r in Next(s, e).committed && Next(s, e).committed[r] == s.committed[r]
    ensures forall r :: r in s.bases ==> r in Next(s, e).bases && Next(s, e).bases[r] == s.bases[r]
    ensures s.revision <= Next(s, e).revision <= s.revision + 1
  {
    if !e.Write? && !e.BlindWrite? {
      ReadStepKeepsRows(s, e);
    }
  }

  /** What is committed at a revision never changes, and the revision never falls. */
  lemma {:induction false} CommittedIsPermanent(s: System, es: seq<Event>)
    requires Coherent(s)
    ensures forall r :: r in s.committed ==>
      r in RunAll(s, es).committed && RunAll(s, es).committed[r] == s.committed[r]
    ensures s.revision <= RunAll(s, es).revision
    decreases |es|
  {
    if es != [] {
      var init := es[..|es| - 1];
      RunKeepsCoherent(s, init);
      CommittedIsPermanent(s, init);
      StepKeepsCommitted(RunAll(s, init), es[|es| - 1]);
    }
  }

  /** A version that differs from what was committed at its revision (a torn or late read) can never be
      the base of a successful write, now or later. */
  lemma TornVersionNeverWrites(s: System, es: seq<Event>, later: seq<Event>, i: nat, v: Version)
    requires Initial(s)
    requires (i, v) in RunAll(s, es).handed
    requires v.revision in RunAll(s, es).committed ==> RunAll(s, es).committed[v.revision] != v.graph
    ensures RunAll(RunAll(s, es), later).revision > v.revision
  {
    RunKeepsCoherent(s, es);
    CommittedIsPermanent(RunAll(s, es), later);
  }

  /** Torn versions do occur: a reader may be handed the old revision with new nodes. */
  lemma TornReadHappens(s: System, i: nat, result: Graph)
    requires Initial(s) && result.nodes != s.graph.nodes
    ensures exists es, v :: (i, v) in RunAll(s, es).handed && v.revision == s.revision && v.graph != s.graph
  {
    var e0, e1, e2 := LoadProject(i), CacheProject(i, true), BlindWrite(s.revision, result);
    var e3, e4, e5 := ReadNodes(i), ReadEdges(i), CacheGraph(i, false);
    RunSnoc(s, [], e0);
    RunSnoc(s, [] + [e0], e1);
    RunSnoc(s, [] + [e0] + [e1], e2);
    RunSnoc(s, [] + [e0] + [e1] + [e2], e3);
    RunSnoc(s, [] + [e0] + [e1] + [e2] + [e3], e4);
    RunSnoc(s, [] + [e0] + [e1] + [e2] + [e3] + [e4], e5);
    var es := [] + [e0] + [e1] + [e2] + [e3] + [e4] + [e5];
    assert (i, Version(s.revision, result)) in RunAll(s, es).handed;
  }

  // ---------- what an edit without interference does ----------

  /** A write at the current revision stores its result under the next one; any other write does nothing. */
  lemma WriteTakesEffect(s: System, i: nat, base: Version, result: Graph)
    requires (i, base) in s.handed
    ensures var s' := Next(s, Write(i, base, result));
            if base.revision == s.revision then
              && s'.graph == result && s'.revision == s.revision + 1
              && s'.revision in s'.committed && s'.committed[s'.revision] == result
              && s'.revision in s'.bases && s'.bases[s'.revision] == base.graph
              && (i, Version(s'.revision, result)) in s'.handed
            else s' == s
  {
  }

  /** The same for a write at a revision from anywhere. */
  lemma BlindWriteTakesEffect(s: System, expected: int, result: Graph)
    ensures var s' := Next(s, BlindWrite(expected, result));
            if expected == s.revision then
              && s'.graph == result && s'.revision == s.revision + 1
              && s'.revision in s'.committed && s'.committed[s'.revision] == result
            else s' == s
  {
  }

  /** A session that reads past the caches while nobody writes is handed the stored graph and revision. */
  lemma QuietReadIsCurrent(s: System, i: nat, cachedProject: bool, cachedGraph: bool)
    requires PhaseOf(s, i) == Idle
    ensures var s' := RunAll(s, [LoadProject(i)] + [CacheProject(i, cachedProject)] + [ReadNodes(i)] + [ReadEdges(i)]
                                + [CacheGraph(i, cachedGraph)]);
            && (i, Version(s.revision, s.graph)) in s'.handed && PhaseOf(s', i) == Idle
            && s'.revision == s.revision && s'.graph == s.graph
            && s'.projectCache == (if cachedProject then Some(s.revision) else s.projectCache)
            && s'.graphCache == (if cachedGraph then Some(Version(s.revision, s.graph)) else s.graphCache)
  {
    var e0, e1, e2 := LoadProject(i), CacheProject(i, cachedProject), ReadNodes(i);
    var e3, e4 := ReadEdges(i), CacheGraph(i, cachedGraph);
    assert [e0][..0] == [];
    RunSnoc(s, [e0], e1);
    RunSnoc(s, [e0] + [e1], e2);
    RunSnoc(s, [e0] + [e1] + [e2], e3);
    RunSnoc(s, [e0] + [e1] + [e2] + [e3], e4);
  }

  /** A session that finds both cached is handed the cached graph under the cached revision. */
  lemma CachedReadIsCached(s: System, i: nat)
    requires PhaseOf(s, i) == Idle && s.projectCache.Some? && s.graphCache.Some?
    requires s.graphCache.value.revision == s.projectCache.value
    ensures var s' := RunAll(s, [FindCachedProject(i)] + [FindCachedGraph(i)]);
            (i, s.graphCache.value) in s'.handed && PhaseOf(s', i) == Idle
  {
    assert [FindCachedProject(i)][..0] == [];
    RunSnoc(s, [FindCachedProject(i)], FindCachedGraph(i));
  }
}
