/** The per-project dispatch protocol: producer stream, delayed set, dispatchers, project locks,
    worker queue and callbacks, interleaved in any order. */
module Dispatching {
  import opened Basics
  import opened Callbacks

  /** Where a dispatcher stands with the task it has taken from the stream. */
  datatype Phase =
    | Idle
    | Taken(task: nat)       // about to try the lock
    | Locked(task: nat)      // holds the lock, about to enqueue
    | Unlocking(task: nat)   // enqueueing failed, about to release
    | Waiting(task: nat)     // lock taken by another task, about to delay the message
    | Requeueing(task: nat)  // dispatching failed, about to put the message back

  datatype System = System(
    project: map<nat, nat>,        // the project of every submitted task
    rows: map<nat, TaskRow>,
    seen: map<nat, set<nat>>,      // callback keys by task
    locks: map<nat, nat>,          // lock holder by project
    stream: multiset<nat>,         // producer stream
    delayed: set<nat>,             // delayed set
    queue: multiset<nat>,          // worker stream
    taken: set<nat>,               // every task some worker has taken from its stream
    accepted: set<nat>,            // every task with an accepted terminal callback
    broken: set<nat>,              // every task whose completion failed on a write
    dispatchers: map<nat, Phase>)

  /** One atomic step. The flags tell whether the store or queue access succeeds; wait tells whether
      a retry delay is configured. */
  datatype Event =
    | Submit(task: nat, toProject: nat, written: bool)
    | Take(dispatcher: nat, message: nat)
    | TryLock(dispatcher: nat, reachable: bool)
    | Enqueue(dispatcher: nat, written: bool)
    | Unlock(dispatcher: nat, deleted: bool)
    | Requeue(dispatcher: nat, wait: bool, written: bool)
    | NoteState(task: nat, progress: int, written: bool)
    | ReleaseDelayed(message: nat, written: bool)
    | WorkerTakes(message: nat)
    | CallBack(task: nat, callback: Callback)

  const EMPTY := System(map[], map[], map[], map[], multiset{}, {}, multiset{}, {}, {}, {}, map[])

  function PhaseOf(s: System, d: nat): Phase
  {
    if d in s.dispatchers then s.dispatchers[d] else Idle
  }

  function Move(s: System, d: nat, p: Phase): System
  {
    s.(dispatchers := s.dispatchers[d := p])
  }

  /** The message goes to the delayed set, or straight to the stream when no delay is configured. */
  function PutBack(s: System, task: nat, wait: bool): System
  {
    if wait then s.(delayed := s.delayed + {task}) else s.(stream := s.stream + multiset{task})
  }

  /** The slice of the system a callback works on. */
  function TaskStateOf(s: System, task: nat): TaskState
    requires task in s.project && task in s.rows
  {
    var p := s.project[task];
    TaskState(task, s.rows[task], if task in s.seen then s.seen[task] else {},
              if p in s.locks then Some(s.locks[p]) else None, Entries(s.stream[task], s.queue[task]),
              task in s.accepted, task in s.broken)
  }

  function PutTaskState(s: System, task: nat, t: TaskState): System
    requires task in s.project
  {
    var p := s.project[task];
    s.(rows := s.rows[task := t.row], seen := s.seen[task := t.seen],
       locks := if t.lock.Some? then s.locks[p := t.lock.value] else s.locks - {p},
       stream := s.stream[task := t.entries.producer], queue := s.queue[task := t.entries.worker],
       accepted := if t.accepted then s.accepted + {task} else s.accepted,
       broken := if t.broken then s.broken + {task} else s.broken)
  }

  /** The task is the holder of its project's lock. */
  predicate Holds(s: System, t: nat)
  {
    t in s.project && s.project[t] in s.locks && s.locks[s.project[t]] == t
  }

  function TryLockStep(s: System, d: nat, t: nat, reachable: bool): System
  {
    if t !in s.project || !reachable then Move(s, d, Requeueing(t))
    else if s.project[t] in s.locks then Move(s, d, Waiting(t))
    else Move(s.(locks := s.locks[s.project[t] := t]), d, Locked(t))
  }

  function EnqueueStep(s: System, d: nat, t: nat, written: bool): System
  {
    if !written then Move(s, d, Unlocking(t))
    else Move(s.(queue := s.queue + multiset{t}), d, Idle)
  }

  /** Deletes the lock only when the task holds it. */
  function UnlockStep(s: System, d: nat, t: nat, deleted: bool): System
  {
    Move(if deleted && Holds(s, t) then s.(locks := s.locks - {s.project[t]}) else s, d, Requeueing(t))
  }

  /** A waiting task whose message could not be delayed goes the way of a failed dispatch. */
  function RequeueStep(s: System, d: nat, p: Phase, wait: bool, written: bool): System
    requires p.Waiting? || p.Requeueing?
  {
    if !written then Move(s, d, if p.Waiting? then Requeueing(p.task) else Idle)
    else Move(PutBack(s, p.task, wait), d, Idle)
  }

  function Next(s: System, e: Event): System
  {
    match e
    case Submit(t, p, written) =>
      if t in s.project then s
      else s.(project := s.project[t := p], rows := s.rows[t := TaskRow(if written then Pending else Failed, 0, 0)],
              stream := if written then s.stream + multiset{t} else s.stream)
    case Take(d, t) =>
      if PhaseOf(s, d) != Idle || t !in s.stream then s
      else Move(s.(stream := s.stream - multiset{t}), d, Taken(t))
    case TryLock(d, reachable) => if PhaseOf(s, d).Taken? then TryLockStep(s, d, PhaseOf(s, d).task, reachable) else s
    case Enqueue(d, written) => if PhaseOf(s, d).Locked? then EnqueueStep(s, d, PhaseOf(s, d).task, written) else s
    case Unlock(d, deleted) => if PhaseOf(s, d).Unlocking? then UnlockStep(s, d, PhaseOf(s, d).task, deleted) else s
    case Requeue(d, wait, written) =>
      if PhaseOf(s, d).Waiting? || PhaseOf(s, d).Requeueing? then RequeueStep(s, d, PhaseOf(s, d), wait, written) else s
    case NoteState(t, progress, written) =>
      if written && t in s.rows then s.(rows := s.rows[t := s.rows[t].(status := Pending, progress := progress)]) else s
    case ReleaseDelayed(t, written) =>
      if t !in s.delayed then s
      else s.(delayed := s.delayed - {t}, stream := if written then s.stream + multiset{t} else s.stream)
    case WorkerTakes(t) =>
      if t !in s.queue then s else s.(queue := s.queue - multiset{t}, taken := s.taken + {t})
    case CallBack(t, cb) =>
      if t !in s.project || t !in s.rows then s else PutTaskState(s, t, After(TaskStateOf(s, t), cb))
  }

  function RunAll(s: System, es: seq<Event>): System
    decreases |es|
  {
    if es == [] then s else Next(RunAll(s, es[..|es| - 1]), es[|es| - 1])
  }

  lemma RunSnoc(s: System, es: seq<Event>, e: Event)
    ensures RunAll(s, es + [e]) == Next(RunAll(s, es), e)
  {
    assert (es + [e])[..|es|] == es;
  }

  lemma {:induction false} RunSplits(s: System, es: seq<Event>, more: seq<Event>)
    ensures RunAll(s, es + more) == RunAll(RunAll(s, es), more)
    decreases |more|
  {
    if more == [] {
      assert es + more == es;
    } else {
      RunSplits(s, es, more[..|more| - 1]);
      assert (es + more)[..|es + more| - 1] == es + more[..|more| - 1];
    }
  }

  // ---------- single steps ----------

  /** A callback handled on the system does to its task's row, keys, project lock and stream entries what
      handling it does, and nothing to any other task or project. */
  lemma CallBackIsHandled(s: System, t: nat, cb: Callback)
    requires t in s.project && t in s.rows
    ensures var s', st' := Next(s, CallBack(t, cb)), After(TaskStateOf(s, t), cb);
            && s'.project == s.project && s'.delayed == s.delayed && s'.taken == s.taken
            && s'.dispatchers == s.dispatchers
            && t in s'.rows && s'.rows[t] == st'.row && t in s'.seen && s'.seen[t] == st'.seen
            && s'.stream[t] == st'.entries.producer && s'.queue[t] == st'.entries.worker
            && (s.project[t] in s'.locks <==> st'.lock.Some?)
            && (st'.lock.Some? ==> s'.locks[s.project[t]] == st'.lock.value)
            && (st'.accepted ==> t in s'.accepted) && (st'.broken ==> t in s'.broken)
  {
  }

  lemma CallBackTouchesOneTask(s: System, t: nat, cb: Callback, u: nat)
    requires t in s.project && t in s.rows && u != t
    ensures var s' := Next(s, CallBack(t, cb));
            && (u in s'.rows <==> u in s.rows) && (u in s.rows ==> s'.rows[u] == s.rows[u])
            && s'.stream[u] == s.stream[u] && s'.queue[u] == s.queue[u]
            && (u in s'.accepted <==> u in s.accepted) && (u in s'.broken <==> u in s.broken)
            && (forall p :: p != s.project[t] ==>
                  (p in s'.locks <==> p in s.locks) && (p in s.locks ==> s'.locks[p] == s.locks[p]))
  {
  }

  /** A new task is pending and one message waits for it, or it has failed and none does. */
  lemma SubmitLeaves(s: System, t: nat, p: nat, written: bool)
    requires t !in s.project
    ensures var s' := Next(s, Submit(t, p, written));
            && s'.project == s.project[t := p] && t in s'.rows
            && s'.rows[t].status == (if written then Pending else Failed) && s'.rows[t].progress == 0
            && s'.stream[t] == s.stream[t] + if written then 1 else 0
  {
  }
}
