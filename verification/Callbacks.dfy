/** Worker callbacks on one task: dedupe keys, attempts, progress, terminal states and the project lock. */
module Callbacks {
  import opened Basics

  datatype Status = Pending | Processing | Retrying | Completed | Failed | Dead

  predicate Terminal(s: Status)
  {
    s == Completed || s == Failed || s == Dead
  }

  datatype TaskRow = TaskRow(status: Status, progress: int, attempts: nat)

  /** A decoded callback. A missing key is None, a blank status None, an unknown one Some(None).
      graphSaved and rowUpdated tell whether storing the result and writing the row succeed; left tells
      how many stream entries clearing cannot delete. */
  datatype Callback = Callback(key: Option<nat>, status: Option<Option<Status>>, progress: int, attempt: int,
                               sameProject: bool, graphSaved: bool, rowUpdated: bool, left: Entries)

  /** Numbers of entries on the producer and on the worker stream. */
  datatype Entries = Entries(producer: nat, worker: nat)

  datatype CallbackError = ProjectMismatch | InvalidStatus | SaveFailed | UpdateFailed

  datatype Answer = Done | Failure(error: CallbackError)

  /** The task's row, the event keys already seen for it, the holder of its project's lock, its entries
      on the two streams, whether a terminal callback has been accepted (answered Done after taking
      effect), and whether a completion has failed on one of its writes. */
  datatype TaskState = TaskState(task: nat, row: TaskRow, seen: set<nat>, lock: Option<nat>, entries: Entries,
                                 accepted: bool, broken: bool)

  function Min(a: nat, b: nat): nat
  {
    if a < b then a else b
  }

  /** What is left when a task's entries are deleted: those that were never tracked, or whose deletion failed. */
  function Cleared(entries: Entries, left: Entries): Entries
  {
    Entries(Min(entries.producer, left.producer), Min(entries.worker, left.worker))
  }

  /** The task gives up its lock and its stream entries. */
  function Release(st: TaskState, left: Entries): TaskState
  {
    st.(lock := if st.lock == Some(st.task) then None else st.lock, entries := Cleared(st.entries, left))
  }

  function Touch(st: TaskState): TaskState
  {
    st.(lock := if st.lock.None? then Some(st.task) else st.lock)
  }

  function Clamp(progress: int): int
  {
    if progress < 0 then 0 else if progress > 100 then 100 else progress
  }

  /** The attempt a callback counts for: absent or negative means the current one. */
  function AttemptOf(row: TaskRow, cb: Callback): nat
  {
    if cb.attempt <= 0 then row.attempts else cb.attempt
  }

  /** Older attempts and, within an attempt, falling progress are ignored. */
  predicate Outdated(row: TaskRow, cb: Callback, terminal: bool)
  {
    var attempt := AttemptOf(row, cb);
    || (attempt > 0 && row.attempts > 0 && attempt < row.attempts)
    || (!terminal && Clamp(cb.progress) < row.progress && attempt <= row.attempts)
  }

  function Handle(st: TaskState, cb: Callback): (TaskState, Answer)
  {
    if cb.key.Some? && cb.key.value in st.seen then (st, Done)
    else HandleFirst(if cb.key.Some? then st.(seen := st.seen + {cb.key.value}) else st, cb)
  }

  /** A callback whose key is new. */
  function HandleFirst(st: TaskState, cb: Callback): (TaskState, Answer)
  {
    var row := st.row;
    if !cb.sameProject then (st, Failure(ProjectMismatch))
    else if cb.status.None? then (st, Failure(InvalidStatus))
    else if row.status == Completed && cb.status.value == Some(Completed) then (Release(st, cb.left), Done)
    else if Terminal(row.status) && !(row.status == Failed && cb.status.value == Some(Dead)) then (st, Done)
    else if Outdated(row, cb, cb.status.value.Some? && Terminal(cb.status.value.value)) then (st, Done)
    else
      var progress, attempt := Clamp(cb.progress), AttemptOf(row, cb);
      match cb.status.value
      case Some(Processing) => Advance(Touch(st), TaskRow(Processing, progress, attempt), cb)
      case Some(Retrying) => Advance(Touch(st), TaskRow(Retrying, progress, attempt), cb)
      case Some(Completed) => Complete(st, cb)
      case Some(Failed) => Fail(st, TaskRow(Failed, progress, attempt), cb)
      case Some(Dead) => Fail(st, TaskRow(Dead, progress, attempt), cb)
      case _ => (st, Failure(InvalidStatus))
  }

  function Advance(st: TaskState, row: TaskRow, cb: Callback): (TaskState, Answer)
  {
    if cb.rowUpdated then (st.(row := row), Done) else (st, Failure(UpdateFailed))
  }

  function Fail(st: TaskState, row: TaskRow, cb: Callback): (TaskState, Answer)
  {
    if cb.rowUpdated then (Release(st, cb.left).(row := row, accepted := true), Done) else (st, Failure(UpdateFailed))
  }

  /** Completion stores the graph first; lock and stream entries go however the writes end. */
  function Complete(st: TaskState, cb: Callback): (TaskState, Answer)
  {
    var released := Release(st, cb.left);
    if !cb.graphSaved then
      (released.(row := if cb.rowUpdated then st.row.(status := Failed) else st.row, broken := true),
        Failure(SaveFailed))
    else if !cb.rowUpdated then (released.(broken := true), Failure(UpdateFailed))
    else (released.(row := st.row.(status := Completed, progress := 100), accepted := true), Done)
  }

  // ---------- the handler ----------

  class CallbackHandler {
    const task: nat
    var row: TaskRow
    var seen: set<nat>
    var lock: Option<nat>
    var producerEntries: nat
    var workerEntries: nat
    ghost var accepted: bool
    ghost var broken: bool

    constructor (task: nat, row: TaskRow, lock: Option<nat>, entries: Entries)
      ensures View() == TaskState(task, row, {}, lock, entries, false, false)
    {
      this.task, this.row, this.lock, seen := task, row, lock, {};
      producerEntries, workerEntries := entries.producer, entries.worker;
      accepted, broken := false, false;
    }

    ghost function View(): TaskState
      reads this
    {
      TaskState(task, row, seen, lock, Entries(producerEntries, workerEntries), accepted, broken)
    }

    method ReleaseProjectLock()
      modifies this`lock
      ensures View() == old(View()).(lock := if old(lock) == Some(task) then None else old(lock))
    {
      if lock.None? || lock.value != task {
        return;
      }
      lock := None;
    }

    /** Deletes the task's entries from both streams, as far as they are tracked and deletable. */
    method ClearTaskStreamEntries(left: Entries)
      modifies this`producerEntries, this`workerEntries
      ensures View() == old(View()).(entries := Cleared(old(View()).entries, left))
    {
      if left.worker < workerEntries {
        workerEntries := left.worker;
      }
      if left.producer < producerEntries {
        producerEntries := left.producer;
      }
    }

    method TouchProjectLock()
      modifies this`lock
      ensures View() == Touch(old(View()))
    {
      if lock.None? {
        lock := Some(task);
      }
    }

    method HandleTaskCallback(cb: Callback) returns (answer: Answer)
      modifies this
      ensures (View(), answer) == Handle(old(View()), cb)
    {
      if cb.key.Some? {
        if cb.key.value in seen {
          return Done;
        }
        seen := seen + {cb.key.value};
      }
      if !cb.sameProject {
        return Failure(ProjectMismatch);
      }
      if cb.status.None? {
        return Failure(InvalidStatus);
      }
      var status := cb.status.value;
      if Terminal(row.status) {
        if row.status == Completed && status == Some(Completed) {
          ReleaseProjectLock();
          ClearTaskStreamEntries(cb.left);
          return Done;
        }
        if !(row.status == Failed && status == Some(Dead)) {
          return Done;
        }
      }
      var progress := cb.progress;
      if progress < 0 {
        progress := 0;
      }
      if progress > 100 {
        progress := 100;
      }
      var attempt := cb.attempt;
      if attempt < 0 {
        attempt := 0;
      }
      if attempt == 0 {
        attempt := row.attempts;
      }
      if attempt > 0 && row.attempts > 0 && attempt < row.attempts {
        return Done;
      }
      if !(status.Some? && Terminal(status.value)) && progress < row.progress && attempt <= row.attempts {
        return Done;
      }
      if status.None? || status.value == Pending {
        return Failure(InvalidStatus);
      }
      answer := Switch(status.value, progress, attempt, cb);
    }

    /** The three kinds of accepted callbacks. */
    method Switch(status: Status, progress: int, attempt: nat, cb: Callback) returns (answer: Answer)
      requires status != Pending
      modifies this
      ensures (View(), answer) ==
        match status
        case Completed => Complete(old(View()), cb)
        case Failed => Fail(old(View()), TaskRow(Failed, progress, attempt), cb)
        case Dead => Fail(old(View()), TaskRow(Dead, progress, attempt), cb)
        case Processing | Retrying => Advance(Touch(old(View())), TaskRow(status, progress, attempt), cb)
    {
      match status
      case Completed =>
        if !cb.graphSaved {
          if cb.rowUpdated {
            row := row.(status := Failed);
          }
          ReleaseProjectLock();
          ClearTaskStreamEntries(cb.left);
          broken := true;
          return Failure(SaveFailed);
        }
        if !cb.rowUpdated {
          ReleaseProjectLock();
          ClearTaskStreamEntries(cb.left);
          broken := true;
          return Failure(UpdateFailed);
        }
        row := row.(status := Completed, progress := 100);
        ReleaseProjectLock();
        ClearTaskStreamEntries(cb.left);
        accepted := true;
        answer := Done;
      case Failed | Dead =>
        if !cb.rowUpdated {
          return Failure(UpdateFailed);
        }
        row := TaskRow(status, progress, attempt);
        ReleaseProjectLock();
        ClearTaskStreamEntries(cb.left);
        accepted := true;
        answer := Done;
      case Processing | Retrying =>
        TouchProjectLock();
        if !cb.rowUpdated {
          return Failure(UpdateFailed);
        }
        row := TaskRow(status, progress, attempt);
        answer := Done;
    }
  }

  // ---------- sequences of callbacks ----------

  function After(st: TaskState, cb: Callback): TaskState
  {
    Handle(st, cb).0
  }

  function HandleAll(st: TaskState, cbs: seq<Callback>): TaskState
    decreases |cbs|
  {
    if cbs == [] then st else After(HandleAll(st, cbs[..|cbs| - 1]), cbs[|cbs| - 1])
  }

  /** (attempts, progress) in lexicographic order. */
  predicate NotBehind(a: TaskRow, b: TaskRow)
  {
    a.attempts < b.attempts || (a.attempts == b.attempts && a.progress <= b.progress)
  }

  lemma CallbackNeverFallsBack(st: TaskState, cb: Callback)
    ensures !Terminal(After(st, cb).row.status) ==> !Terminal(st.row.status) && NotBehind(st.row, After(st, cb).row)
    ensures Terminal(st.row.status) ==>
      After(st, cb).row == st.row || (st.row.status == Failed && After(st, cb).row.status == Dead)
  {
  }

  lemma {:induction false} HandleAllSplits(st: TaskState, cbs: seq<Callback>, more: seq<Callback>)
    ensures HandleAll(st, cbs + more) == HandleAll(HandleAll(st, cbs), more)
    decreases |more|
  {
    if more == [] {
      assert cbs + more == cbs;
    } else {
      HandleAllSplits(st, cbs, more[..|more| - 1]);
      assert (cbs + more)[..|cbs + more| - 1] == cbs + more[..|more| - 1];
    }
  }

  /** Over any callbacks: while the task is not terminal, (attempt, progress) never falls; and a
      terminal row stays as it is, except that failed may become dead, which is final. */
  lemma {:induction false} CallbackOrder(st: TaskState, cbs: seq<Callback>)
    ensures var row' := HandleAll(st, cbs).row;
            && (!Terminal(row'.status) ==> !Terminal(st.row.status) && NotBehind(st.row, row'))
            && (Terminal(st.row.status) ==> row' == st.row || (st.row.status == Failed && row'.status == Dead))
    decreases |cbs|
  {
    if cbs != [] {
      var before := HandleAll(st, cbs[..|cbs| - 1]);
      CallbackOrder(st, cbs[..|cbs| - 1]);
      CallbackNeverFallsBack(before, cbs[|cbs| - 1]);
    }
  }

  /** Between any two moments of a run the same holds. */
  lemma CallbackOrderBetween(st: TaskState, cbs: seq<Callback>, i: nat, j: nat)
    requires i <= j <= |cbs|
    ensures var a, b := HandleAll(st, cbs[..i]).row, HandleAll(st, cbs[..j]).row;
            && (!Terminal(b.status) ==> !Terminal(a.status) && NotBehind(a, b))
            && (Terminal(a.status) ==> b == a || (a.status == Failed && b.status == Dead))
  {
    assert cbs[..j] == cbs[..i] + cbs[i..j];
    HandleAllSplits(st, cbs[..i], cbs[i..j]);
    CallbackOrder(HandleAll(st, cbs[..i]), cbs[i..j]);
  }

  /** The callbacks without the later ones under an event key already seen. */
  function FirstOnly(seen: set<nat>, cbs: seq<Callback>): seq<Callback>
    decreases |cbs|
  {
    if cbs == [] then []
    else
      var cb := cbs[0];
      if cb.key.None? then [cb] + FirstOnly(seen, cbs[1..])
      else if cb.key.value in seen then FirstOnly(seen, cbs[1..])
      else [cb] + FirstOnly(seen + {cb.key.value}, cbs[1..])
  }

  lemma SeenAfter(st: TaskState, cb: Callback)
    ensures After(st, cb).seen == if cb.key.Some? then st.seen + {cb.key.value} else st.seen
    ensures cb.key.Some? && cb.key.value in st.seen ==> After(st, cb) == st
  {
    if cb.key.Some? && cb.key.value in st.seen {
      assert st.seen + {cb.key.value} == st.seen;
    }
  }

  lemma HandleAllHead(st: TaskState, cb: Callback, rest: seq<Callback>)
    ensures HandleAll(st, [cb] + rest) == HandleAll(After(st, cb), rest)
  {
    HandleAllSplits(st, [cb], rest);
    assert [cb][..0] == [];
    assert HandleAll(st, []) == st;
    assert HandleAll(st, [cb]) == After(st, cb);
  }

  /** Dedupe: repeated event keys make no difference to anything the callbacks leave behind. */
  lemma {:induction false} RepeatsDoNotCount(st: TaskState, cbs: seq<Callback>)
    ensures HandleAll(st, cbs) == HandleAll(st, FirstOnly(st.seen, cbs))
    decreases |cbs|
  {
    if cbs != [] {
      var cb, rest := cbs[0], cbs[1..];
      assert cbs == [cb] + rest;
      HandleAllHead(st, cb, rest);
      SeenAfter(st, cb);
      RepeatsDoNotCount(After(st, cb), rest);
      if cb.key.None? || cb.key.value !in st.seen {
        HandleAllHead(st, cb, FirstOnly(After(st, cb).seen, rest));
      }
    }
  }

  /** A keyed callback that failed cannot be retried under its key: the key is taken before the work. */
  lemma FailedKeyIsSpent(st: TaskState, cb: Callback, retry: Callback)
    requires cb.key.Some? && retry.key == cb.key
    ensures After(After(st, cb), retry) == After(st, cb) && Handle(After(st, cb), retry).1 == Done
  {
    SeenAfter(st, cb);
  }

  // ---------- what one callback does ----------

  /** A callback to take up: a new key or none, this project, a status a worker may report, a row that is
      not over (save failed to dead), no older attempt, and no falling progress within an attempt. */
  predicate Acceptable(st: TaskState, cb: Callback)
  {
    && (cb.key.None? || cb.key.value !in st.seen)
    && cb.sameProject
    && cb.status.Some? && cb.status.value.Some? && cb.status.value.value != Pending
    && (st.row.status in {Completed, Failed, Dead} ==> st.row.status == Failed && cb.status.value.value == Dead)
    && (cb.attempt > 0 && st.row.attempts > 0 ==> cb.attempt >= st.row.attempts)
    && (cb.status.value.value in {Completed, Failed, Dead} || cb.attempt > st.row.attempts
        || st.row.progress <= 0 || (st.row.progress <= 100 && cb.progress >= st.row.progress))
  }

  /** The writes it needs succeed. */
  predicate Written(cb: Callback)
  {
    cb.rowUpdated && (cb.status == Some(Some(Completed)) ==> cb.graphSaved)
  }

  lemma AcceptableIsCurrent(st: TaskState, cb: Callback)
    requires cb.status.Some? && cb.status.value.Some?
    ensures var terminal := Terminal(cb.status.value.value);
            !Outdated(st.row, cb, terminal) <==>
            && (cb.attempt > 0 && st.row.attempts > 0 ==> cb.attempt >= st.row.attempts)
            && (terminal || cb.attempt > st.row.attempts || st.row.progress <= 0
                || (st.row.progress <= 100 && cb.progress >= st.row.progress))
  {
  }

  /** The row an accepted callback leaves: its own status, its progress between 0 and 100 (100 when
      completed), its attempt, or the current one when it names none or completes the task. */
  lemma AcceptedCallbackSetsRow(st: TaskState, cb: Callback)
    requires Acceptable(st, cb) && Written(cb)
    ensures Handle(st, cb).1 == Done
    ensures var row, status := After(st, cb).row, cb.status.value.value;
            && row.status == status
            && (status == Completed ==> row.progress == 100 && row.attempts == st.row.attempts)
            && (status != Completed && 0 <= cb.progress <= 100 ==> row.progress == cb.progress)
            && (status != Completed && cb.progress < 0 ==> row.progress == 0)
            && (status != Completed && cb.progress > 100 ==> row.progress == 100)
            && (status != Completed && cb.attempt > 0 ==> row.attempts == cb.attempt)
            && (cb.attempt <= 0 ==> row.attempts == st.row.attempts)
  {
    AcceptableIsCurrent(st, cb);
  }

  /** And what it does beside the row: progress takes a free lock; a terminal status gives up the task's
      own lock and its deletable stream entries. */
  lemma AcceptedCallbackSetsRest(st: TaskState, cb: Callback)
    requires Acceptable(st, cb) && Written(cb)
    ensures var st', status := After(st, cb), cb.status.value.value;
            && st'.task == st.task && st'.broken == st.broken
            && (forall k :: k in st'.seen <==> k in st.seen || cb.key == Some(k))
            && (status in {Processing, Retrying} ==>
                  && (st.lock.None? ==> st'.lock == Some(st.task)) && (st.lock.Some? ==> st'.lock == st.lock)
                  && st'.entries == st.entries && st'.accepted == st.accepted)
            && (status in {Completed, Failed, Dead} ==>
                  && GivesUp(st, st', cb.left)
                  && st'.accepted)
  {
    AcceptableIsCurrent(st, cb);
  }

  /** Any other callback leaves the row alone, but for a completion whose graph cannot be stored: it
      makes the task failed. */
  lemma OtherCallbackKeepsRow(st: TaskState, cb: Callback)
    requires !(Acceptable(st, cb) && Written(cb))
    ensures var row := After(st, cb).row;
            if Acceptable(st, cb) && cb.status == Some(Some(Completed)) && !cb.graphSaved && cb.rowUpdated
            then row.status == Failed && row.progress == st.row.progress && row.attempts == st.row.attempts
            else row == st.row
  {
    if cb.status.Some? && cb.status.value.Some? {
      AcceptableIsCurrent(st, cb);
    }
  }

  /** A callback that is not acceptable changes nothing but the seen keys, except that a repeated completion
      gives up the lock and the entries once more. */
  lemma UnacceptableCallbackIsIgnored(st: TaskState, cb: Callback)
    requires !Acceptable(st, cb)
    requires !(st.row.status == Completed && cb.status == Some(Some(Completed)))
    ensures After(st, cb) == st.(seen := After(st, cb).seen)
  {
    if cb.status.Some? && cb.status.value.Some? {
      AcceptableIsCurrent(st, cb);
    }
  }

  /** How a callback that is not acceptable is answered: a wrong project or a missing status is an error,
      and so is an unknown status for a row that is not over; everything else counts as done. */
  lemma UnacceptableCallbackAnswer(st: TaskState, cb: Callback)
    requires !Acceptable(st, cb)
    ensures var known := cb.key.Some? && cb.key.value in st.seen;
            && (known ==> Handle(st, cb).1 == Done)
            && (!known && !cb.sameProject ==> Handle(st, cb).1 == Failure(ProjectMismatch))
            && (!known && cb.sameProject && cb.status.None? ==> Handle(st, cb).1 == Failure(InvalidStatus))
            && (!known && cb.sameProject && cb.status.Some? && cb.status.value.Some? && cb.status.value.value != Pending
                ==> Handle(st, cb).1 == Done)
            && (!known && cb.sameProject && st.row.status in {Completed, Failed, Dead} && cb.status.Some?
                ==> Handle(st, cb).1 == Done)
            && (!known && cb.sameProject && cb.status in {Some(None), Some(Some(Pending))}
                && st.row.status !in {Completed, Failed, Dead} && cb.attempt > st.row.attempts
                ==> Handle(st, cb).1 == Failure(InvalidStatus))
  {
    if cb.status.Some? && cb.status.value.Some? {
      AcceptableIsCurrent(st, cb);
    }
  }

  /** An acceptable callback whose row cannot be written: progress has taken a free lock by then; failed and
      dead change nothing; a completion gives up lock and entries in any case. */
  lemma UnwrittenCallback(st: TaskState, cb: Callback)
    requires Acceptable(st, cb) && !Written(cb)
    ensures var st', status := After(st, cb), cb.status.value.value;
            && st'.task == st.task && st'.accepted == st.accepted
            && (status in {Processing, Retrying} ==>
                  && Handle(st, cb).1 == Failure(UpdateFailed) && st'.entries == st.entries
                  && st'.lock == (if st.lock.None? then Some(st.task) else st.lock) && st'.broken == st.broken)
            && (status in {Failed, Dead} ==>
                  Handle(st, cb).1 == Failure(UpdateFailed) && st' == st.(seen := st'.seen))
            && (status == Completed ==>
                  && Handle(st, cb).1 == (if cb.graphSaved then Failure(UpdateFailed) else Failure(SaveFailed))
                  && st'.broken && GivesUp(st, st', cb.left))
  {
    AcceptableIsCurrent(st, cb);
  }

  /** The task's own lock is free, another's is kept, and of the entries only what cannot be deleted is left. */
  predicate GivesUp(st: TaskState, st': TaskState, left: Entries)
  {
    && (st.lock == Some(st.task) ==> st'.lock.None?) && (st.lock != Some(st.task) ==> st'.lock == st.lock)
    && (st'.entries.producer == if st.entries.producer < left.producer then st.entries.producer else left.producer)
    && (st'.entries.worker == if st.entries.worker < left.worker then st.entries.worker else left.worker)
  }

  /** A repeated completion gives up lock and entries once more and changes nothing else. */
  lemma RepeatedCompletion(st: TaskState, cb: Callback)
    requires st.row.status == Completed && cb.status == Some(Some(Completed)) && cb.sameProject
    requires cb.key.None? || cb.key.value !in st.seen
    ensures Handle(st, cb).1 == Done && GivesUp(st, After(st, cb), cb.left)
    ensures var st' := After(st, cb); st' == st.(seen := st'.seen, lock := st'.lock, entries := st'.entries)
  {
  }

  // ---------- when a task loses its lock ----------

  /** A completion that passes all guards. */
  predicate Completes(st: TaskState, cb: Callback)
  {
    && !(cb.key.Some? && cb.key.value in st.seen)
    && cb.sameProject && cb.status == Some(Some(Completed))
    && !Terminal(st.row.status) && !Outdated(st.row, cb, true)
  }

  /** Exactly when a callback takes a task's own lock away without being answered Done: when it
      completes the task and one of the two writes fails. */
  lemma LosesLockUnansweredIff(st: TaskState, cb: Callback)
    requires st.lock == Some(st.task)
    ensures After(st, cb).lock != st.lock && Handle(st, cb).1 != Done
            <==> Completes(st, cb) && !(cb.graphSaved && cb.rowUpdated)
  {
  }
}
