/** Safety over whole runs of the dispatch protocol: exclusion, conservation, and the completion that breaks it. */
module DispatchRuns {
  import opened Basics
  import opened Callbacks
  import opened Dispatching

  // ---------- at most one running task per project ----------

  /** A terminal callback was accepted, or a completion failed on one of its writes. */
  predicate Settled(s: System, t: nat)
  {
    t in s.accepted || t in s.broken
  }

  /** On the worker stream, or taken from it. */
  predicate WithWorkers(s: System, t: nat)
  {
    t in s.queue || t in s.taken
  }

  /** Put on the worker stream, and not settled yet. */
  predicate Running(s: System, t: nat)
  {
    WithWorkers(s, t) && !Settled(s, t)
  }

  /** The dispatcher has the task's lock in hand. */
  predicate InHand(s: System, d: nat, t: nat)
  {
    d in s.dispatchers && (s.dispatchers[d] == Locked(t) || s.dispatchers[d] == Unlocking(t))
  }

  /** Running tasks hold their project's lock; so do tasks between locking and enqueueing, which
      are then in the hands of one dispatcher only. */
  ghost predicate Exclusive(s: System)
  {
    && (forall t :: Running(s, t) ==> Holds(s, t))
    && (forall d, t :: InHand(s, d, t) && !Settled(s, t) ==> Holds(s, t) && !WithWorkers(s, t))
    && (forall d, e, t :: InHand(s, d, t) && InHand(s, e, t) && !Settled(s, t) ==> d == e)
    && CompletedAreAccepted(s)
  }

  ghost predicate CompletedAreAccepted(s: System)
  {
    forall t :: t in s.rows && s.rows[t].status == Completed ==> t in s.accepted
  }

  predicate Initial(s: System)
  {
    && s.project == map[] && s.rows == map[] && s.dispatchers == map[]
    && s.queue == multiset{} && s.taken == {} && s.accepted == {} && s.broken == {}
  }

  /** No task comes to the workers or is newly taken in hand, and no unsettled task in use loses its lock. */
  ghost predicate Gentle(s: System, s': System)
  {
    && (forall t :: WithWorkers(s', t) ==> WithWorkers(s, t)) && s.accepted <= s'.accepted && s.broken <= s'.broken
    && (forall d, t :: InHand(s', d, t) ==> InHand(s, d, t))
    && (forall t :: Holds(s, t) && !Settled(s', t) && (Running(s, t) || exists d :: InHand(s', d, t)) ==> Holds(s', t))
  }

  lemma GentleStepsKeepExclusive(s: System, s': System)
    requires Exclusive(s) && Gentle(s, s') && CompletedAreAccepted(s')
    ensures Exclusive(s')
  {
  }

  /** Queue changes, status writes and a dispatcher move that takes nothing in hand. */
  lemma QuietMoveKeepsExclusive(s: System, s': System, d: nat, p: Phase)
    requires Exclusive(s) && CompletedAreAccepted(s')
    requires s'.project == s.project && s'.locks == s.locks && s'.queue == s.queue && s'.taken == s.taken
    requires s'.accepted == s.accepted && s'.broken == s.broken
    requires s'.dispatchers == s.dispatchers[d := p] && !p.Locked? && !p.Unlocking?
    ensures Exclusive(s')
  {
    assert forall f, u :: InHand(s', f, u) ==> InHand(s, f, u);
    GentleStepsKeepExclusive(s, s');
  }

  lemma SubmitKeepsExclusive(s: System, e: Event)
    requires Exclusive(s) && e.Submit?
    ensures Exclusive(Next(s, e))
  {
    var s' := Next(s, e);
    assert forall u :: Holds(s, u) ==> Holds(s', u);
    assert CompletedAreAccepted(s');
    GentleStepsKeepExclusive(s, s');
  }

  lemma QueueStepsKeepExclusive(s: System, e: Event)
    requires Exclusive(s) && (e.NoteState? || e.ReleaseDelayed?)
    ensures Exclusive(Next(s, e))
  {
    var s' := Next(s, e);
    assert s' == s.(rows := s'.rows, stream := s'.stream, delayed := s'.delayed);
    assert CompletedAreAccepted(s');
    assert forall u :: Holds(s, u) <==> Holds(s', u);
    assert forall d, u :: InHand(s, d, u) <==> InHand(s', d, u);
    GentleStepsKeepExclusive(s, s');
  }

  lemma WorkerKeepsExclusive(s: System, t: nat)
    requires Exclusive(s)
    ensures Exclusive(Next(s, WorkerTakes(t)))
  {
    var s' := Next(s, WorkerTakes(t));
    assert forall u :: WithWorkers(s', u) ==> WithWorkers(s, u);
    assert forall u :: Holds(s, u) <==> Holds(s', u);
    assert forall d, u :: InHand(s, d, u) <==> InHand(s', d, u);
    GentleStepsKeepExclusive(s, s');
  }

  lemma TakeKeepsExclusive(s: System, d: nat, t: nat)
    requires Exclusive(s)
    ensures Exclusive(Next(s, Take(d, t)))
  {
    if PhaseOf(s, d) == Idle && t in s.stream {
      QuietMoveKeepsExclusive(s, Next(s, Take(d, t)), d, Taken(t));
    }
  }

  lemma RequeueKeepsExclusive(s: System, d: nat, p: Phase, wait: bool, written: bool)
    requires Exclusive(s) && (p.Waiting? || p.Requeueing?)
    ensures Exclusive(RequeueStep(s, d, p, wait, written))
  {
    QuietMoveKeepsExclusive(s, RequeueStep(s, d, p, wait, written), d,
                            if p.Waiting? && !written then Requeueing(p.task) else Idle);
  }

  lemma TryLockKeepsExclusive(s: System, d: nat, t: nat, reachable: bool)
    requires Exclusive(s)
    ensures Exclusive(TryLockStep(s, d, t, reachable))
  {
    var s' := TryLockStep(s, d, t, reachable);
    if t in s.project && reachable && s.project[t] !in s.locks {
      assert !Holds(s, t);
      assert forall u :: Holds(s, u) ==> Holds(s', u);
      assert forall f, u :: InHand(s', f, u) ==> InHand(s, f, u) || (f == d && u == t);
    } else {
      QuietMoveKeepsExclusive(s, s', d, s'.dispatchers[d]);
    }
  }

  lemma EnqueueKeepsExclusive(s: System, d: nat, t: nat, written: bool)
    requires Exclusive(s) && PhaseOf(s, d) == Locked(t)
    ensures Exclusive(EnqueueStep(s, d, t, written))
  {
    var s' := EnqueueStep(s, d, t, written);
    assert InHand(s, d, t);
    assert forall u :: Holds(s', u) <==> Holds(s, u);
    assert forall f, u :: InHand(s', f, u) ==> InHand(s, f, u);
    if written {
      assert !InHand(s', d, t);
      assert forall u :: Running(s', u) ==> Running(s, u) || u == t;
    } else {
      GentleStepsKeepExclusive(s, s');
    }
  }

  lemma UnlockKeepsExclusive(s: System, d: nat, t: nat, deleted: bool)
    requires Exclusive(s) && PhaseOf(s, d) == Unlocking(t)
    ensures Exclusive(UnlockStep(s, d, t, deleted))
  {
    var s' := UnlockStep(s, d, t, deleted);
    assert InHand(s, d, t);
    assert forall u :: Holds(s, u) && u != t ==> Holds(s', u);
    assert forall f, u :: InHand(s', f, u) ==> InHand(s, f, u) && f != d;
    GentleStepsKeepExclusive(s, s');
  }

  /** What a callback may do to the lock: take it when free, give up its own with a terminal outcome. */
  lemma CallbackLeaves(st: TaskState, cb: Callback)
    ensures var st' := After(st, cb);
            && (st.accepted ==> st'.accepted) && (st.broken ==> st'.broken)
            && (st'.row.status == Completed ==> st'.accepted || st.row.status == Completed)
            && (st'.lock != st.lock && st.lock.Some? ==> st.lock == Some(st.task) && Concluded(st, st'))
  {
  }

  /** It deletes stream entries only with a terminal outcome, and adds none. */
  lemma CallbackClears(st: TaskState, cb: Callback)
    ensures var st' := After(st, cb);
            && (st'.entries != st.entries ==> Concluded(st, st'))
            && st'.entries.producer <= st.entries.producer && st'.entries.worker <= st.entries.worker
  {
  }

  predicate Concluded(st: TaskState, st': TaskState)
  {
    st'.accepted || st'.broken || st.row.status == Completed
  }

  lemma CallBackKeepsExclusive(s: System, u: nat, cb: Callback)
    requires Exclusive(s) && u in s.project && u in s.rows
    ensures Exclusive(PutTaskState(s, u, After(TaskStateOf(s, u), cb)))
  {
    var s' := PutTaskState(s, u, After(TaskStateOf(s, u), cb));
    CallbackLeaves(TaskStateOf(s, u), cb);
    CallbackClears(TaskStateOf(s, u), cb);
    assert forall t :: WithWorkers(s', t) ==> WithWorkers(s, t);
    assert forall t :: Holds(s, t) && t != u ==> Holds(s', t);
    assert forall d, t :: InHand(s', d, t) <==> InHand(s, d, t);
    assert CompletedAreAccepted(s');
    GentleStepsKeepExclusive(s, s');
  }

  lemma NextKeepsExclusive(s: System, e: Event)
    requires Exclusive(s)
    ensures Exclusive(Next(s, e))
  {
    if Next(s, e) == s {
      return;
    }
    match e
    case Take(d, t) => TakeKeepsExclusive(s, d, t);
    case TryLock(d, reachable) => TryLockKeepsExclusive(s, d, PhaseOf(s, d).task, reachable);
    case Enqueue(d, written) => EnqueueKeepsExclusive(s, d, PhaseOf(s, d).task, written);
    case Unlock(d, deleted) => UnlockKeepsExclusive(s, d, PhaseOf(s, d).task, deleted);
    case Requeue(d, wait, written) => RequeueKeepsExclusive(s, d, PhaseOf(s, d), wait, written);
    case CallBack(t, cb) => CallBackKeepsExclusive(s, t, cb);
    case Submit(_, _, _) => SubmitKeepsExclusive(s, e);
    case WorkerTakes(t) => WorkerKeepsExclusive(s, t);
    case NoteState(_, _, _) | ReleaseDelayed(_, _) => QueueStepsKeepExclusive(s, e);
  }

  lemma {:induction false} RunKeepsExclusive(s: System, es: seq<Event>)
    requires Exclusive(s)
    ensures Exclusive(RunAll(s, es))
    decreases |es|
  {
    if es != [] {
      RunKeepsExclusive(s, es[..|es| - 1]);
      NextKeepsExclusive(RunAll(s, es[..|es| - 1]), es[|es| - 1]);
    }
  }

  /** Some run from an initial system ends here. */
  ghost predicate Reachable(s: System)
  {
    exists start, es :: Initial(start) && RunAll(start, es) == s
  }

  /** In every reachable state a running task holds its project's lock, so each project has at most
      one running task, whatever the number of dispatchers and the interleaving. */
  lemma OneRunningTaskPerProject(s: System, t: nat, u: nat)
    requires Reachable(s) && Running(s, t)
    ensures Holds(s, t)
    ensures Running(s, u) && u in s.project && s.project[t] == s.project[u] ==> t == u
  {
    var start, es :| Initial(start) && RunAll(start, es) == s;
    RunKeepsExclusive(start, es);
  }

  // ---------- no task gets lost ----------

  predicate Carries(s: System, d: nat, t: nat)
  {
    d in s.dispatchers && s.dispatchers[d] != Idle && s.dispatchers[d].task == t
  }

  /** Waiting in the stream or the delayed set, with the workers, or over. */
  predicate Placed(s: System, t: nat)
  {
    t in s.stream || t in s.delayed || WithWorkers(s, t) || Settled(s, t)
  }

  ghost predicate Tracked(s: System, t: nat)
  {
    Placed(s, t) || exists d :: Carries(s, d, t)
  }

  ghost predicate AllTracked(s: System)
  {
    forall t :: t in s.project ==> Tracked(s, t)
  }

  /** The writes that would lose a message when they fail: the submission, the release of a delayed
      message, and the last attempt to put a message back. */
  predicate Lossless(s: System, e: Event)
  {
    (e.Submit? || e.ReleaseDelayed? || (e.Requeue? && PhaseOf(s, e.dispatcher).Requeueing?)) ==> e.written
  }

  predicate LosslessRun(s: System, es: seq<Event>)
    decreases |es|
  {
    es == [] ||
    (LosslessRun(s, es[..|es| - 1]) && Lossless(RunAll(s, es[..|es| - 1]), es[|es| - 1]))
  }

  /** A callback takes a message off a stream only when its task is over. */
  lemma CallBackKeepsPlaced(s: System, u: nat, cb: Callback, t: nat)
    requires CompletedAreAccepted(s) && Placed(s, t) && u in s.project && u in s.rows
    ensures Placed(PutTaskState(s, u, After(TaskStateOf(s, u), cb)), t)
  {
    CallbackLeaves(TaskStateOf(s, u), cb);
    CallbackClears(TaskStateOf(s, u), cb);
  }

  lemma EnqueueKeepsPlaced(s: System, d: nat, u: nat, written: bool, t: nat)
    requires Placed(s, t)
    ensures Placed(EnqueueStep(s, d, u, written), t)
  {
  }

  lemma RequeueKeepsPlaced(s: System, d: nat, p: Phase, wait: bool, written: bool, t: nat)
    requires Placed(s, t) && (p.Waiting? || p.Requeueing?)
    ensures Placed(RequeueStep(s, d, p, wait, written), t)
  {
  }

  lemma WorkerKeepsPlaced(s: System, u: nat, t: nat)
    requires Placed(s, t)
    ensures Placed(Next(s, WorkerTakes(u)), t)
  {
  }

  lemma PlacedStaysPlaced(s: System, e: Event, t: nat)
    requires CompletedAreAccepted(s) && Placed(s, t) && !e.Take? && !e.ReleaseDelayed?
    ensures Placed(Next(s, e), t)
  {
    if Next(s, e) == s {
      return;
    }
    match e
    case CallBack(u, cb) => CallBackKeepsPlaced(s, u, cb, t);
    case TryLock(_, _) =>
    case Unlock(_, _) =>
    case NoteState(_, _, _) =>
    case Submit(_, _, _) =>
    case Enqueue(d, written) => EnqueueKeepsPlaced(s, d, PhaseOf(s, d).task, written, t);
    case Requeue(d, wait, written) => RequeueKeepsPlaced(s, d, PhaseOf(s, d), wait, written, t);
    case WorkerTakes(u) => WorkerKeepsPlaced(s, u, t);
  }

  lemma PlacedStaysTracked(s: System, e: Event, t: nat)
    requires CompletedAreAccepted(s) && Lossless(s, e) && Placed(s, t)
    ensures Placed(Next(s, e), t) || (e.Take? && Carries(Next(s, e), e.dispatcher, t))
  {
    match e
    case Take(d, u) =>
      if t != u && t in s.stream {
        assert t in s.stream - multiset{u};
      }
    case ReleaseDelayed(u, _) =>
    case _ => PlacedStaysPlaced(s, e, t);
  }

  /** A dispatcher's own step keeps its message or queues it. */
  lemma OwnStepKeepsTracked(s: System, e: Event, d: nat, t: nat)
    requires Lossless(s, e) && Carries(s, d, t)
    requires (e.TryLock? || e.Enqueue? || e.Unlock? || e.Requeue?) && e.dispatcher == d
    ensures Placed(Next(s, e), t) || Carries(Next(s, e), d, t)
  {
    var p := s.dispatchers[d];
    assert PhaseOf(s, d) == p && p.task == t;
    if e.Requeue? && (p.Waiting? || p.Requeueing?) {
      assert Placed(PutBack(s, t, e.wait), t);
    }
  }

  lemma OthersKeepPhase(s: System, e: Event, d: nat)
    requires d in s.dispatchers && s.dispatchers[d] != Idle
    requires (e.TryLock? || e.Enqueue? || e.Unlock? || e.Requeue?) ==> e.dispatcher != d
    ensures d in Next(s, e).dispatchers && Next(s, e).dispatchers[d] == s.dispatchers[d]
  {
    match e
    case CallBack(_, _) => assert Next(s, e).dispatchers == s.dispatchers;
    case Take(f, _) => assert f == d ==> PhaseOf(s, f) != Idle;
    case Submit(_, _, _) =>
    case TryLock(_, _) =>
    case Enqueue(_, _) =>
    case Unlock(_, _) =>
    case Requeue(_, _, _) =>
    case NoteState(_, _, _) =>
    case ReleaseDelayed(_, _) =>
    case WorkerTakes(_) =>
  }

  lemma CarriedStaysTracked(s: System, e: Event, d: nat, t: nat)
    requires Lossless(s, e) && Carries(s, d, t)
    ensures Placed(Next(s, e), t) || Carries(Next(s, e), d, t)
  {
    if (e.TryLock? || e.Enqueue? || e.Unlock? || e.Requeue?) && e.dispatcher == d {
      OwnStepKeepsTracked(s, e, d, t);
    } else {
      OthersKeepPhase(s, e, d);
    }
  }

  lemma LosslessStepKeepsTracked(s: System, e: Event)
    requires CompletedAreAccepted(s) && AllTracked(s) && Lossless(s, e)
    ensures AllTracked(Next(s, e))
  {
    forall t | t in Next(s, e).project ensures Tracked(Next(s, e), t) {
      if t in s.project {
        assert Tracked(s, t);
        if Placed(s, t) {
          PlacedStaysTracked(s, e, t);
        } else {
          var d :| Carries(s, d, t);
          CarriedStaysTracked(s, e, d, t);
        }
      } else {
        assert Placed(Next(s, e), t);
      }
    }
  }

  lemma {:induction false} LosslessRunKeepsTracked(s: System, es: seq<Event>)
    requires Exclusive(s) && AllTracked(s) && LosslessRun(s, es)
    ensures AllTracked(RunAll(s, es))
    decreases |es|
  {
    if es != [] {
      var init := es[..|es| - 1];
      LosslessRunKeepsTracked(s, init);
      RunKeepsExclusive(s, init);
      LosslessStepKeepsTracked(RunAll(s, init), es[|es| - 1]);
    }
  }

  /** However dispatchers fail to lock, to enqueue or to delay, a submitted task that has not reached the
      workers is in the stream, in the delayed set or in a dispatcher's hands, or it is over: callbacks
      delete stream entries only of tasks they conclude. */
  lemma NoTaskGetsLost(s: System, t: nat)
    requires ReachedLosslessly(s) && t in s.project
    ensures t in s.stream || t in s.delayed || t in s.queue || t in s.taken || Settled(s, t)
            || exists d :: Carries(s, d, t)
  {
    var start, es :| Initial(start) && LosslessRun(start, es) && RunAll(start, es) == s;
    LosslessRunKeepsTracked(start, es);
    assert Tracked(s, t);
  }

  /** Some run from an initial system, with no losing write, ends here. */
  ghost predicate ReachedLosslessly(s: System)
  {
    exists start, es :: Initial(start) && LosslessRun(start, es) && RunAll(start, es) == s
  }

  // ---------- a completion that fails on a write ----------

  /** Submits a task of project 0 and lets dispatcher 0 enqueue it. */
  lemma DispatchOne(s: System, es: seq<Event>, t: nat) returns (more: seq<Event>)
    requires var now := RunAll(s, es);
             t !in now.project && t !in now.stream && 0 !in now.locks && PhaseOf(now, 0) == Idle
    ensures var then' := RunAll(s, more);
            && then'.project == RunAll(s, es).project[t := 0] && then'.locks == RunAll(s, es).locks[0 := t]
            && then'.rows == RunAll(s, es).rows[t := TaskRow(Pending, 0, 0)] && then'.seen == RunAll(s, es).seen
            && then'.queue == RunAll(s, es).queue + multiset{t} && PhaseOf(then', 0) == Idle
            && then'.taken == RunAll(s, es).taken
            && then'.accepted == RunAll(s, es).accepted && then'.stream == RunAll(s, es).stream
  {
    more := es + [Submit(t, 0, true)];
    RunSnoc(s, es, Submit(t, 0, true));
    RunSnoc(s, more, Take(0, t));
    more := more + [Take(0, t)];
    RunSnoc(s, more, TryLock(0, true));
    more := more + [TryLock(0, true)];
    RunSnoc(s, more, Enqueue(0, true));
    more := more + [Enqueue(0, true)];
  }

  lemma BreakFree(s: System, t: nat, cb: Callback)
    requires Holds(s, t) && t in s.rows && t !in s.accepted && (t in s.seen ==> s.seen[t] == {})
    requires Completes(TaskStateOf(s, t), cb) && !cb.graphSaved && cb.left == Entries(0, 0)
    ensures var s' := Next(s, CallBack(t, cb));
            && s'.project == s.project && s'.queue == s.queue[t := 0] && s'.accepted == s.accepted
            && s'.dispatchers == s.dispatchers && s'.locks == s.locks - {s.project[t]}
            && s'.taken == s.taken && (forall u :: u in s'.stream ==> u in s.stream)
  {
  }

  /** A completion whose graph cannot be stored gives up the lock although it is not accepted: then two
      tasks of one project can be with the workers, neither with an accepted terminal callback. */
  lemma BrokenCompletionFreesTheProject()
    ensures exists es :: var s := RunAll(EMPTY, es);
      0 in s.taken && 1 in s.queue && s.project == map[0 := 0, 1 := 0] && s.accepted == {}
  {
    var cb := Callback(None, Some(Some(Completed)), 100, 0, true, false, true, Entries(0, 0));
    assert RunAll(EMPTY, []) == EMPTY;
    var es := DispatchOne(EMPTY, [], 0);
    RunSnoc(EMPTY, es, WorkerTakes(0));
    es := es + [WorkerTakes(0)];
    BreakFree(RunAll(EMPTY, es), 0, cb);
    RunSnoc(EMPTY, es, CallBack(0, cb));
    es := es + [CallBack(0, cb)];
    es := DispatchOne(EMPTY, es, 1);
  }
}
