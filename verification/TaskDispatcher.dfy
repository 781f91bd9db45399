/** The dispatcher's own code for one message: every uninterrupted call is a run of the dispatch protocol. */
module TaskDispatcher {
  import opened Basics
  import opened Callbacks
  import opened Dispatching

  /** What the environment does while one message is handled: which writes and accesses succeed, and
      whether a retry delay is configured. */
  datatype Luck = Luck(noted: bool, lockReachable: bool, enqueued: bool, lockDeleted: bool, delay: bool,
                       requeued: bool, retried: bool)

  /** Dispatching one payload ends without an error. */
  predicate Succeeds(s: System, t: nat, luck: Luck)
    requires t in s.project
  {
    luck.lockReachable && if s.project[t] in s.locks then luck.requeued else luck.enqueued
  }

  /** The steps that dispatching one payload takes, once the message is read. */
  function PayloadEvents(s: System, d: nat, t: nat, luck: Luck): seq<Event>
    requires t in s.project
  {
    var start := [NoteState(t, 4, luck.noted), TryLock(d, luck.lockReachable)];
    if !luck.lockReachable then start
    else if s.project[t] in s.locks then start + [NoteState(t, 3, luck.noted)] + [Requeue(d, luck.delay, luck.requeued)]
    else if luck.enqueued then start + [Enqueue(d, true)] + [NoteState(t, 8, luck.noted)]
    else start + [Enqueue(d, false)] + [Unlock(d, luck.lockDeleted)] + [NoteState(t, 3, luck.noted)]
  }

  /** An error leads to one more attempt to put the message back. */
  function MessageEvents(s: System, d: nat, t: nat, luck: Luck): seq<Event>
    requires t in s.project
  {
    var es := [Take(d, t)] + PayloadEvents(s, d, t, luck);
    if Succeeds(s, t, luck) then es else es + [Requeue(d, luck.delay, luck.retried)]
  }

  /** Reading the message leaves everything that decides the steps as it was. */
  lemma TakeKeepsPayloadEvents(s: System, d: nat, t: nat, luck: Luck)
    requires t in s.project
    ensures var s' := Next(s, Take(d, t));
            && t in s'.project && PayloadEvents(s', d, t, luck) == PayloadEvents(s, d, t, luck)
            && Succeeds(s', t, luck) == Succeeds(s, t, luck)
            && RunAll(s, [Take(d, t)] + PayloadEvents(s, d, t, luck)) == RunAll(s', PayloadEvents(s, d, t, luck))
  {
    RunSplits(s, [Take(d, t)], PayloadEvents(s, d, t, luck));
    assert [Take(d, t)][..0] == [];
  }

  // ---------- what a message leaves behind ----------

  function Noted(rows: map<nat, TaskRow>, t: nat, progress: int, written: bool): map<nat, TaskRow>
  {
    if written && t in rows then rows[t := TaskRow(Pending, progress, rows[t].attempts)] else rows
  }

  /** The progress a dispatch leaves in the task's row: 4 at the start, 8 once enqueued, 3 when it has to wait. */
  function LastProgress(luck: Luck, busy: bool): int
  {
    if !luck.lockReachable then 4 else if !busy && luck.enqueued then 8 else 3
  }

  /** Whether the message is put back: it was not enqueued, and one of the writes back succeeds. */
  predicate GoesBack(s: System, t: nat, luck: Luck)
    requires t in s.project
  {
    && !(luck.lockReachable && s.project[t] !in s.locks && luck.enqueued)
    && ((luck.lockReachable && s.project[t] in s.locks && luck.requeued) || luck.retried)
  }

  lemma NoteStep(s: System, t: nat, progress: int, written: bool)
    ensures Next(s, NoteState(t, progress, written)) == s.(rows := Noted(s.rows, t, progress, written))
  {
  }

  lemma NotedTwice(rows: map<nat, TaskRow>, t: nat, first: int, second: int, written: bool)
    ensures Noted(Noted(rows, t, first, written), t, second, written) == Noted(rows, t, second, written)
  {
  }

  /** The first two steps: the state is noted, and the lock is tried. */
  lemma Started(s: System, d: nat, t: nat, luck: Luck)
    requires t in s.project && PhaseOf(s, d) == Taken(t)
    ensures RunAll(s, [NoteState(t, 4, luck.noted), TryLock(d, luck.lockReachable)])
            == TryLockStep(s.(rows := Noted(s.rows, t, 4, luck.noted)), d, t, luck.lockReachable)
  {
    var e0, e1 := NoteState(t, 4, luck.noted), TryLock(d, luck.lockReachable);
    NoteStep(s, t, 4, luck.noted);
    assert [e0][..0] == [];
    assert RunAll(s, [e0]) == Next(s, e0);
    RunSnoc(s, [e0], e1);
    assert [e0] + [e1] == [e0, e1];
    assert PhaseOf(Next(s, e0), d) == Taken(t);
  }

  /** The project is free and the worker stream can be written: the task is enqueued and holds the lock. */
  lemma PayloadEnqueued(s: System, d: nat, t: nat, luck: Luck)
    requires t in s.project && PhaseOf(s, d) == Taken(t)
    requires luck.lockReachable && s.project[t] !in s.locks && luck.enqueued
    ensures RunAll(s, PayloadEvents(s, d, t, luck)) ==
            s.(rows := Noted(s.rows, t, 8, luck.noted), locks := s.locks[s.project[t] := t],
               queue := s.queue + multiset{t}, dispatchers := s.dispatchers[d := Idle])
  {
    var start := [NoteState(t, 4, luck.noted), TryLock(d, luck.lockReachable)];
    var locked := s.(rows := Noted(s.rows, t, 4, luck.noted), locks := s.locks[s.project[t] := t],
                     dispatchers := s.dispatchers[d := Locked(t)]);
    Started(s, d, t, luck);
    assert RunAll(s, start) == locked;
    RunSnoc(s, start, Enqueue(d, true));
    var sent := locked.(queue := s.queue + multiset{t}, dispatchers := locked.dispatchers[d := Idle]);
    assert Next(locked, Enqueue(d, true)) == sent;
    RunSnoc(s, start + [Enqueue(d, true)], NoteState(t, 8, luck.noted));
    NoteStep(sent, t, 8, luck.noted);
    NotedTwice(s.rows, t, 4, 8, luck.noted);
    assert sent.dispatchers == s.dispatchers[d := Idle];
  }

  /** The worker stream cannot be written: the lock is given up again if that succeeds. */
  lemma PayloadBroken(s: System, d: nat, t: nat, luck: Luck)
    requires t in s.project && PhaseOf(s, d) == Taken(t)
    requires luck.lockReachable && s.project[t] !in s.locks && !luck.enqueued
    ensures RunAll(s, PayloadEvents(s, d, t, luck)) ==
            s.(rows := Noted(s.rows, t, 3, luck.noted),
               locks := if luck.lockDeleted then s.locks else s.locks[s.project[t] := t],
               dispatchers := s.dispatchers[d := Requeueing(t)])
  {
    var start := [NoteState(t, 4, luck.noted), TryLock(d, luck.lockReachable)];
    var locked := s.(rows := Noted(s.rows, t, 4, luck.noted), locks := s.locks[s.project[t] := t],
                     dispatchers := s.dispatchers[d := Locked(t)]);
    Started(s, d, t, luck);
    assert RunAll(s, start) == locked;
    RunSnoc(s, start, Enqueue(d, false));
    var failed := locked.(dispatchers := locked.dispatchers[d := Unlocking(t)]);
    assert Next(locked, Enqueue(d, false)) == failed;
    RunSnoc(s, start + [Enqueue(d, false)], Unlock(d, luck.lockDeleted));
    var freed := failed.(locks := if luck.lockDeleted then s.locks else locked.locks,
                         dispatchers := failed.dispatchers[d := Requeueing(t)]);
    assert Holds(failed, t) && locked.locks - {s.project[t]} == s.locks;
    assert Next(failed, Unlock(d, luck.lockDeleted)) == freed;
    RunSnoc(s, start + [Enqueue(d, false)] + [Unlock(d, luck.lockDeleted)], NoteState(t, 3, luck.noted));
    NoteStep(freed, t, 3, luck.noted);
    NotedTwice(s.rows, t, 4, 3, luck.noted);
    assert freed.dispatchers == s.dispatchers[d := Requeueing(t)];
  }

  /** The project is busy: the message is delayed, if the write succeeds. */
  lemma PayloadBusy(s: System, d: nat, t: nat, luck: Luck)
    requires t in s.project && PhaseOf(s, d) == Taken(t)
    requires luck.lockReachable && s.project[t] in s.locks
    ensures RunAll(s, PayloadEvents(s, d, t, luck)) ==
            s.(rows := Noted(s.rows, t, 3, luck.noted),
               stream := s.stream + (if luck.requeued && !luck.delay then multiset{t} else multiset{}),
               delayed := s.delayed + (if luck.requeued && luck.delay then {t} else {}),
               dispatchers := s.dispatchers[d := if luck.requeued then Idle else Requeueing(t)])
  {
    var start := [NoteState(t, 4, luck.noted), TryLock(d, luck.lockReachable)];
    var busy := s.(rows := Noted(s.rows, t, 4, luck.noted), dispatchers := s.dispatchers[d := Waiting(t)]);
    Started(s, d, t, luck);
    assert RunAll(s, start) == busy;
    RunSnoc(s, start, NoteState(t, 3, luck.noted));
    var noted := busy.(rows := Noted(s.rows, t, 3, luck.noted));
    NoteStep(busy, t, 3, luck.noted);
    NotedTwice(s.rows, t, 4, 3, luck.noted);
    RunSnoc(s, start + [NoteState(t, 3, luck.noted)], Requeue(d, luck.delay, luck.requeued));
    PutBackStep(noted, d, Waiting(t), luck.delay, luck.requeued);
    assert s.dispatchers[d := Waiting(t)][d := Idle] == s.dispatchers[d := Idle];
    assert s.dispatchers[d := Waiting(t)][d := Requeueing(t)] == s.dispatchers[d := Requeueing(t)];
  }

  /** One attempt to put a message back. */
  lemma PutBackStep(s: System, d: nat, p: Phase, wait: bool, written: bool)
    requires d in s.dispatchers && s.dispatchers[d] == p && (p.Waiting? || p.Requeueing?)
    ensures Next(s, Requeue(d, wait, written)) ==
            s.(stream := s.stream + (if written && !wait then multiset{p.task} else multiset{}),
               delayed := s.delayed + (if written && wait then {p.task} else {}),
               dispatchers := s.dispatchers[d := if p.Waiting? && !written then Requeueing(p.task) else Idle])
  {
    assert s.stream + multiset{} == s.stream && s.delayed + {} == s.delayed;
  }

  lemma PayloadUnreachable(s: System, d: nat, t: nat, luck: Luck)
    requires t in s.project && PhaseOf(s, d) == Taken(t) && !luck.lockReachable
    ensures RunAll(s, PayloadEvents(s, d, t, luck)) ==
            s.(rows := Noted(s.rows, t, 4, luck.noted), dispatchers := s.dispatchers[d := Requeueing(t)])
  {
    Started(s, d, t, luck);
  }

  /** What one message handled without interruption leaves behind. */
  ghost predicate LeavesMessage(s: System, s': System, d: nat, t: nat, luck: Luck)
    requires t in s.project
  {
    var free := luck.lockReachable && s.project[t] !in s.locks;
    && s'.queue == s.queue + (if free && luck.enqueued then multiset{t} else multiset{})
    && s'.locks == (if free && (luck.enqueued || !luck.lockDeleted) then s.locks[s.project[t] := t] else s.locks)
    && s'.stream == s.stream + (if GoesBack(s, t, luck) && !luck.delay then multiset{t} else multiset{})
    && s'.delayed == s.delayed + (if GoesBack(s, t, luck) && luck.delay then {t} else {})
    && s'.rows == Noted(s.rows, t, LastProgress(luck, s.project[t] in s.locks), luck.noted)
    && s'.dispatchers == s.dispatchers[d := Idle]
    && s' == s.(queue := s'.queue, locks := s'.locks, stream := s'.stream, delayed := s'.delayed, rows := s'.rows,
                dispatchers := s'.dispatchers)
  }

  /** After the message is read, dispatching it without an error. */
  lemma GoodPayloadLeaves(s: System, d: nat, t: nat, luck: Luck)
    requires t in s.project && PhaseOf(s, d) == Taken(t) && Succeeds(s, t, luck)
    ensures LeavesMessage(s, RunAll(s, PayloadEvents(s, d, t, luck)), d, t, luck)
  {
    assert s.queue + multiset{} == s.queue && s.stream + multiset{} == s.stream && s.delayed + {} == s.delayed;
    if s.project[t] in s.locks {
      PayloadBusy(s, d, t, luck);
    } else {
      PayloadEnqueued(s, d, t, luck);
    }
  }

  /** After an error: the state before the message is put back. */
  function Failed(s: System, d: nat, t: nat, luck: Luck): System
    requires t in s.project
  {
    var free := luck.lockReachable && s.project[t] !in s.locks;
    s.(rows := Noted(s.rows, t, if luck.lockReachable then 3 else 4, luck.noted),
       locks := if free && !luck.lockDeleted then s.locks[s.project[t] := t] else s.locks,
       dispatchers := s.dispatchers[d := Requeueing(t)])
  }

  lemma BadPayloadFails(s: System, d: nat, t: nat, luck: Luck)
    requires t in s.project && PhaseOf(s, d) == Taken(t) && !Succeeds(s, t, luck)
    ensures RunAll(s, PayloadEvents(s, d, t, luck)) == Failed(s, d, t, luck)
  {
    assert s.stream + multiset{} == s.stream && s.delayed + {} == s.delayed;
    if !luck.lockReachable {
      PayloadUnreachable(s, d, t, luck);
    } else if s.project[t] in s.locks {
      PayloadBusy(s, d, t, luck);
    } else {
      PayloadBroken(s, d, t, luck);
    }
  }

  lemma BadPayloadLeaves(s: System, d: nat, t: nat, luck: Luck)
    requires t in s.project && PhaseOf(s, d) == Taken(t) && !Succeeds(s, t, luck)
    ensures LeavesMessage(s, Next(RunAll(s, PayloadEvents(s, d, t, luck)), Requeue(d, luck.delay, luck.retried)), d,
            t, luck)
  {
    BadPayloadFails(s, d, t, luck);
    PutBackStep(Failed(s, d, t, luck), d, Requeueing(t), luck.delay, luck.retried);
    assert s.dispatchers[d := Requeueing(t)][d := Idle] == s.dispatchers[d := Idle];
    assert s.queue + multiset{} == s.queue;
  }

  lemma PhaseDoesNotMatter(s: System, s': System, d: nat, t: nat, luck: Luck)
    requires t in s.project && LeavesMessage(s.(dispatchers := s.dispatchers[d := Taken(t)]), s', d, t, luck)
    ensures LeavesMessage(s, s', d, t, luck)
  {
    assert s.dispatchers[d := Taken(t)][d := Idle] == s.dispatchers[d := Idle];
  }

  /** What the events of a message come to. */
  lemma MessageEnds(s: System, d: nat, t: nat, luck: Luck)
    requires t in s.project
    ensures var ran := RunAll(Next(s, Take(d, t)), PayloadEvents(s, d, t, luck));
            RunAll(s, MessageEvents(s, d, t, luck)) ==
            if Succeeds(s, t, luck) then ran else Next(ran, Requeue(d, luck.delay, luck.retried))
  {
    TakeKeepsPayloadEvents(s, d, t, luck);
    RunSnoc(s, [Take(d, t)] + PayloadEvents(s, d, t, luck), Requeue(d, luck.delay, luck.retried));
  }

  /** One copy of the message leaves the stream. The task is enqueued and holds its project's lock, or one
      copy goes back to the delayed set (or the stream) if a write there succeeds. */
  lemma MessageLeaves(s: System, d: nat, t: nat, luck: Luck)
    requires t in s.project && t in s.stream && PhaseOf(s, d) == Idle
    ensures LeavesMessage(s.(stream := s.stream - multiset{t}), RunAll(s, MessageEvents(s, d, t, luck)), d, t, luck)
  {
    var unread := s.(stream := s.stream - multiset{t});
    var read := unread.(dispatchers := s.dispatchers[d := Taken(t)]);
    assert Next(s, Take(d, t)) == read;
    TakeKeepsPayloadEvents(s, d, t, luck);
    MessageEnds(s, d, t, luck);
    if Succeeds(s, t, luck) {
      GoodPayloadLeaves(read, d, t, luck);
    } else {
      BadPayloadLeaves(read, d, t, luck);
    }
    PhaseDoesNotMatter(unread, RunAll(s, MessageEvents(s, d, t, luck)), d, t, luck);
  }

  class ProducerService {
    var project: map<nat, nat>
    var rows: map<nat, TaskRow>
    var seen: map<nat, set<nat>>
    var locks: map<nat, nat>
    var stream: multiset<nat>
    var delayed: set<nat>
    var queue: multiset<nat>
    ghost var taken: set<nat>
    ghost var accepted: set<nat>
    ghost var broken: set<nat>
    ghost var dispatchers: map<nat, Phase>

    constructor ()
      ensures View() == EMPTY
    {
      project, rows, seen, locks := map[], map[], map[], map[];
      stream, delayed, queue := multiset{}, {}, multiset{};
      taken, accepted, broken, dispatchers := {}, {}, {}, map[];
    }

    ghost function View(): System
      reads this
    {
      System(project, rows, seen, locks, stream, delayed, queue, taken, accepted, broken, dispatchers)
    }

    method UpdateDispatchState(t: nat, progress: int, written: bool)
      modifies this`rows
      ensures View() == Next(old(View()), NoteState(t, progress, written))
      ensures rows == Noted(old(rows), t, progress, written)
    {
      if written && t in rows {
        rows := rows[t := rows[t].(status := Pending, progress := progress)];
      }
    }

    /** Inserts the lock when absent; None when the store cannot be reached. */
    method TryAcquireProjectLock(d: nat, t: nat, reachable: bool) returns (locked: Option<bool>)
      requires t in project && PhaseOf(View(), d) == Taken(t)
      modifies this`locks, this`dispatchers
      ensures View() == Next(old(View()), TryLock(d, reachable))
      ensures locked == if !reachable then None else Some(old(project[t] !in locks))
      ensures locks == if locked == Some(true) then old(locks)[project[t] := t] else old(locks)
      ensures PhaseOf(View(), d) == if !reachable then Requeueing(t) else if locked == Some(true) then Locked(t)
              else Waiting(t)
    {
      if !reachable {
        dispatchers := dispatchers[d := Requeueing(t)];
        return None;
      }
      if project[t] in locks {
        dispatchers := dispatchers[d := Waiting(t)];
        return Some(false);
      }
      locks := locks[project[t] := t];
      dispatchers := dispatchers[d := Locked(t)];
      locked := Some(true);
    }

    method EnqueueTask(d: nat, t: nat, written: bool)
      requires PhaseOf(View(), d) == Locked(t)
      modifies this`queue, this`dispatchers
      ensures View() == Next(old(View()), Enqueue(d, written))
      ensures queue == old(queue) + if written then multiset{t} else multiset{}
      ensures PhaseOf(View(), d) == if written then Idle else Unlocking(t)
    {
      if !written {
        dispatchers := dispatchers[d := Unlocking(t)];
        return;
      }
      queue := queue + multiset{t};
      dispatchers := dispatchers[d := Idle];
    }

    method ReleaseProjectLock(d: nat, t: nat, deleted: bool)
      requires t in project && PhaseOf(View(), d) == Unlocking(t)
      modifies this`locks, this`dispatchers
      ensures View() == Next(old(View()), Unlock(d, deleted))
      ensures locks == if deleted && project[t] in old(locks) &&
              old(locks)[project[t]] == t then old(locks) - {project[t]}
                       else old(locks)
      ensures PhaseOf(View(), d) == Requeueing(t)
    {
      dispatchers := dispatchers[d := Requeueing(t)];
      if project[t] !in locks || locks[project[t]] != t {
        return;
      }
      if deleted {
        locks := locks - {project[t]};
      }
    }

    method RequeueDelayedProducerPayload(d: nat, t: nat, wait: bool, written: bool)
      requires PhaseOf(View(), d) == Waiting(t) || PhaseOf(View(), d) == Requeueing(t)
      modifies this`stream, this`delayed, this`dispatchers
      ensures View() == Next(old(View()), Requeue(d, wait, written))
      ensures stream == old(stream) + if written && !wait then multiset{t} else multiset{}
      ensures delayed == old(delayed) + if written && wait then {t} else {}
      ensures PhaseOf(View(), d) == if old(PhaseOf(View(), d)).Waiting? && !written then Requeueing(t) else Idle
    {
      dispatchers := dispatchers[d := if PhaseOf(View(), d).Waiting? && !written then Requeueing(t) else Idle];
      if !written {
        return;
      }
      if !wait {
        stream := stream + multiset{t};
        return;
      }
      delayed := delayed + {t};
    }

    method DispatchFaultTreePayload(d: nat, t: nat, luck: Luck) returns (ok: bool)
      requires t in project && PhaseOf(View(), d) == Taken(t)
      modifies this`rows, this`locks, this`stream, this`delayed, this`queue, this`dispatchers
      ensures View() == RunAll(old(View()), PayloadEvents(old(View()), d, t, luck))
      ensures ok == Succeeds(old(View()), t, luck)
      ensures PhaseOf(View(), d) == if ok then Idle else Requeueing(t)
    {
      ghost var before := View();
      ghost var es := [NoteState(t, 4, luck.noted)];
      assert es[..0] == [];
      UpdateDispatchState(t, 4, luck.noted);
      assert View() == RunAll(before, es);
      RunSnoc(before, es, TryLock(d, luck.lockReachable));
      es := es + [TryLock(d, luck.lockReachable)];
      var locked := TryAcquireProjectLock(d, t, luck.lockReachable);
      assert es == [NoteState(t, 4, luck.noted), TryLock(d, luck.lockReachable)];
      if locked.None? {
        return false;
      }
      assert View() == RunAll(before, es);
      if !locked.value {
        ok := DelayWaiting(d, t, luck, before, es);
        return;
      }
      ok := EnqueueLocked(d, t, luck, before, es);
    }

    /** The part of dispatching for a task whose project is busy. */
    method DelayWaiting(d: nat, t: nat, luck: Luck, ghost before: System, ghost done: seq<Event>) returns (ok: bool)
      requires t in project && PhaseOf(View(), d) == Waiting(t) && View() == RunAll(before, done)
      modifies this`rows, this`stream, this`delayed, this`dispatchers
      ensures View() == RunAll(before, done + [NoteState(t, 3, luck.noted)] + [Requeue(d, luck.delay, luck.requeued)])
      ensures ok == luck.requeued
      ensures PhaseOf(View(), d) == if ok then Idle else Requeueing(t)
    {
      RunSnoc(before, done, NoteState(t, 3, luck.noted));
      UpdateDispatchState(t, 3, luck.noted);
      RunSnoc(before, done + [NoteState(t, 3, luck.noted)], Requeue(d, luck.delay, luck.requeued));
      RequeueDelayedProducerPayload(d, t, luck.delay, luck.requeued);
      ok := luck.requeued;
    }

    /** The part of dispatching that runs with the lock in hand. */
    method EnqueueLocked(d: nat, t: nat, luck: Luck, ghost before: System, ghost done: seq<Event>) returns (ok: bool)
      requires t in project && PhaseOf(View(), d) == Locked(t) && View() == RunAll(before, done)
      modifies this`rows, this`locks, this`queue, this`dispatchers
      ensures View() == RunAll(before, if luck.enqueued then done + [Enqueue(d, true)] + [NoteState(t, 8, luck.noted)]
                                       else done + [Enqueue(d, false)] + [Unlock(d, luck.lockDeleted)] +
                                            [NoteState(t, 3, luck.noted)])
      ensures ok == luck.enqueued
      ensures PhaseOf(View(), d) == if ok then Idle else Requeueing(t)
    {
      RunSnoc(before, done, Enqueue(d, luck.enqueued));
      ghost var es := done + [Enqueue(d, luck.enqueued)];
      EnqueueTask(d, t, luck.enqueued);
      if !luck.enqueued {
        RunSnoc(before, es, Unlock(d, luck.lockDeleted));
        es := es + [Unlock(d, luck.lockDeleted)];
        ReleaseProjectLock(d, t, luck.lockDeleted);
        RunSnoc(before, es, NoteState(t, 3, luck.noted));
        UpdateDispatchState(t, 3, luck.noted);
        return false;
      }
      RunSnoc(before, es, NoteState(t, 8, luck.noted));
      UpdateDispatchState(t, 8, luck.noted);
      ok := true;
    }

    method ReadMessage(d: nat, t: nat)
      requires t in stream && PhaseOf(View(), d) == Idle
      modifies this`stream, this`dispatchers
      ensures View() == Next(old(View()), Take(d, t)) && PhaseOf(View(), d) == Taken(t)
    {
      stream := stream - multiset{t};
      dispatchers := dispatchers[d := Taken(t)];
    }

    /** One copy of the message leaves the stream. The task is enqueued and holds its project's lock, or one
        copy goes back to the delayed set (or the stream) if a write there succeeds. */
    method HandleProducerMessage(d: nat, t: nat, luck: Luck)
      requires t in project && t in stream && PhaseOf(View(), d) == Idle
      modifies this`rows, this`locks, this`stream, this`delayed, this`queue, this`dispatchers
      ensures View() == RunAll(old(View()), MessageEvents(old(View()), d, t, luck))
      ensures PhaseOf(View(), d) == Idle
      ensures var free := luck.lockReachable && old(project[t] !in locks);
              && queue == old(queue) + (if free && luck.enqueued then multiset{t} else multiset{})
              && locks == if free && (luck.enqueued || !luck.lockDeleted) then old(locks)[project[t] := t]
                else old(locks)
      ensures stream == old(stream) - multiset{t} + if GoesBack(old(View()), t, luck) && !luck.delay then multiset{t}
                                                    else multiset{}
      ensures delayed == old(delayed) + if GoesBack(old(View()), t, luck) && luck.delay then {t} else {}
      ensures rows == Noted(old(rows), t, LastProgress(luck, old(project[t] in locks)), luck.noted)
    {
      ghost var before := View();
      MessageLeaves(before, d, t, luck);
      TakeKeepsPayloadEvents(before, d, t, luck);
      ReadMessage(d, t);
      ghost var es := [Take(d, t)] + PayloadEvents(before, d, t, luck);
      var ok := DispatchFaultTreePayload(d, t, luck);
      assert View() == RunAll(before, es);
      if !ok {
        RunSnoc(before, es, Requeue(d, luck.delay, luck.retried));
        RequeueDelayedProducerPayload(d, t, luck.delay, luck.retried);
      }
    }

    /** Removes one delayed message and puts it on the stream; skipped when another dispatcher was faster. */
    method ReleaseOne(t: nat, written: bool)
      modifies this`delayed, this`stream
      ensures View() == Next(old(View()), ReleaseDelayed(t, written))
      ensures delayed == old(delayed) - {t}
      ensures stream == old(stream) + if t in old(delayed) && written then multiset{t} else multiset{}
    {
      if t in delayed {
        delayed := delayed - {t};
        if written {
          stream := stream + multiset{t};
        }
      }
    }

    method ReleaseDelayedProducerTasks(due: seq<nat>, written: seq<bool>)
      requires |due| == |written|
      modifies this`delayed, this`stream
      ensures View() == RunAll(old(View()), seq(|due|, i requires 0 <= i < |due| => ReleaseDelayed(due[i], written[i])))
      ensures forall t :: t in delayed <==> t in old(delayed) && t !in due
    {
      ghost var all := seq(|due|, i requires 0 <= i < |due| => ReleaseDelayed(due[i], written[i]));
      for i := 0 to |due|
        invariant View() == RunAll(old(View()), all[..i])
        invariant forall t :: t in delayed <==> t in old(delayed) && t !in due[..i]
      {
        assert all[..i + 1] == all[..i] + [all[i]];
        RunSnoc(old(View()), all[..i], all[i]);
        ReleaseOne(due[i], written[i]);
      }
      assert all[..|due|] == all;
    }
  }
}
