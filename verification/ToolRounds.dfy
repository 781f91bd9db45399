/** The agent's rewriting of one round of tool calls: runs of mutations are fused into batches. */
module ToolRounds {
  import opened Basics
  import opened FaultTree
  import opened Edits
  import opened Constraints
  import opened Planning
  import opened CommittedRuns

  /** A call as the model sent it; parses tells whether its arguments are valid JSON. */
  datatype ToolCall = ToolCall(id: Id, op: Op, parses: bool)

  /** Server tools that change the graph, except the batch itself. */
  predicate Mergeable(op: Op)
  {
    op.UpdateNode? || op.UpdateGate? || op.AddNode? || op.AddGate? || op.DeleteNode? || op.MoveNode?
  }

  function OpsOf(calls: seq<ToolCall>): seq<Op>
  {
    seq(|calls|, i requires 0 <= i < |calls| => calls[i].op)
  }

  /** The number of leading mergeable calls. */
  function RunLength(calls: seq<ToolCall>): (n: nat)
    ensures n <= |calls|
  {
    if calls == [] || !Mergeable(calls[0].op) then 0 else 1 + RunLength(calls[1..])
  }

  predicate Fusible(segment: seq<ToolCall>)
  {
    |segment| > 1 && forall c :: c in segment ==> c.parses
  }

  /** The round after fusing: every maximal run of two or more mergeable calls that parse becomes one
      batch, everything else stays. The caller supplies a call identifier for batches that need one. */
  function MergedCalls(calls: seq<ToolCall>, spareId: Id): seq<ToolCall>
    decreases |calls|
  {
    if calls == [] then []
    else
      var n := RunLength(calls);
      if n == 0 then [calls[0]] + MergedCalls(calls[1..], spareId)
      else FusedSegment(calls[..n], spareId) + MergedCalls(calls[n..], spareId)
  }

  function FusedSegment(segment: seq<ToolCall>, spareId: Id): seq<ToolCall>
  {
    if Fusible(segment) then [FusedCall(segment, spareId)] else segment
  }

  function FusedCall(segment: seq<ToolCall>, spareId: Id): ToolCall
    requires segment != []
  {
    ToolCall(if segment[0].id == NoId then spareId else segment[0].id, Batch(OpsOf(segment), false), true)
  }

  /** One strict batch of exactly these operations, in order, under the first call's identifier or, when it
      has none, the spare one. */
  predicate IsBatchOf(segment: seq<ToolCall>, call: ToolCall, spareId: Id)
  {
    && segment != [] && call.op.Batch? && !call.op.repairMode && call.parses
    && |call.op.ops| == |segment| && (forall i :: 0 <= i < |segment| ==> call.op.ops[i] == segment[i].op)
    && call.id == if segment[0].id != NoId then segment[0].id else spareId
  }

  /** One segment as one batch call. */
  method MergeMutationSegment(segment: seq<ToolCall>, spareId: Id) returns (merged: Option<ToolCall>)
    ensures merged.Some? <==> Fusible(segment)
    ensures merged.Some? ==> merged.value == FusedCall(segment, spareId) && IsBatchOf(segment, merged.value, spareId)
  {
    if |segment| <= 1 {
      return None;
    }
    var batchOps := [];
    for i := 0 to |segment|
      invariant forall j :: 0 <= j < i ==> segment[j].parses
      invariant batchOps == OpsOf(segment)[..i]
    {
      if !segment[i].parses {
        assert segment[i] in segment;
        return None;
      }
      batchOps := batchOps + [segment[i].op];
    }
    assert batchOps == OpsOf(segment);
    var mergedId := if segment[0].id == NoId then spareId else segment[0].id;
    merged := Some(ToolCall(mergedId, Batch(batchOps, false), true));
  }

  /** The leading run splits into its first i calls and the run of the rest. */
  lemma {:induction false} RunLengthFrom(calls: seq<ToolCall>, i: nat)
    requires i <= |calls| && forall k :: 0 <= k < i ==> Mergeable(calls[k].op)
    ensures RunLength(calls) == i + RunLength(calls[i..])
    decreases i
  {
    if i > 0 {
      RunLengthFrom(calls[1..], i - 1);
      assert calls[1..][i - 1..] == calls[i..];
    } else {
      assert calls[0..] == calls;
    }
  }

  lemma Regroup(a: seq<ToolCall>, b: seq<ToolCall>, c: seq<ToolCall>)
    ensures (a + b) + c == a + (b + c)
  {
  }

  lemma SingleStep(whole: seq<ToolCall>, out: seq<ToolCall>, calls: seq<ToolCall>, i: nat, spareId: Id)
    requires i < |calls| && !Mergeable(calls[i].op) && out + MergedCalls(calls[i..], spareId) == whole
    ensures (out + [calls[i]]) + MergedCalls(calls[i + 1..], spareId) == whole
  {
    var rest := calls[i..];
    assert rest[0] == calls[i] && rest[1..] == calls[i + 1..];
    Regroup(out, [calls[i]], MergedCalls(calls[i + 1..], spareId));
  }

  lemma UnfoldRun(rest: seq<ToolCall>, n: nat, spareId: Id)
    requires rest != [] && n == RunLength(rest) && n > 0
    ensures MergedCalls(rest, spareId) == FusedSegment(rest[..n], spareId) + MergedCalls(rest[n..], spareId)
  {
  }

  lemma RunFrom(calls: seq<ToolCall>, i: nat, j: nat)
    requires i < j <= |calls| && (forall k :: i <= k < j ==> Mergeable(calls[k].op))
    requires j < |calls| ==> !Mergeable(calls[j].op)
    ensures RunLength(calls[i..]) == j - i
  {
    var rest, n := calls[i..], j - i;
    assert forall k :: 0 <= k < n ==> rest[k] == calls[i + k];
    RunLengthFrom(rest, n);
  }

  lemma RunStep(whole: seq<ToolCall>, out: seq<ToolCall>, calls: seq<ToolCall>, i: nat, j: nat, spareId: Id)
    requires i < j <= |calls| && RunLength(calls[i..]) == j - i
    requires out + MergedCalls(calls[i..], spareId) == whole
    ensures (out + FusedSegment(calls[i..j], spareId)) + MergedCalls(calls[j..], spareId) == whole
  {
    var rest, n := calls[i..], j - i;
    UnfoldRun(rest, n, spareId);
    assert rest[n..] == calls[j..] && rest[..n] == calls[i..j];
    Regroup(out, FusedSegment(calls[i..j], spareId), MergedCalls(calls[j..], spareId));
  }

  method MergeRoundMutationCalls(calls: seq<ToolCall>, spareId: Id) returns (out: seq<ToolCall>)
    ensures out == MergedCalls(calls, spareId)
    ensures Joined(Pieces(calls)) == calls && AllBecome(Pieces(calls), out, spareId)
  {
    FusingLosesNothing(calls, spareId);
    if |calls| <= 1 {
      ShortRound(calls, spareId);
      return calls;
    }
    out := [];
    ghost var whole := MergedCalls(calls, spareId);
    var i := 0;
    assert calls[0..] == calls;
    while i < |calls|
      invariant 0 <= i <= |calls| && out + MergedCalls(calls[i..], spareId) == whole
    {
      if !Mergeable(calls[i].op) {
        SingleStep(whole, out, calls, i, spareId);
        out := out + [calls[i]];
        i := i + 1;
        continue;
      }
      var j := EndOfRun(calls, i);
      RunStep(whole, out, calls, i, j, spareId);
      var added := FuseOrKeep(calls[i..j], spareId);
      out := out + added;
      i := j;
    }
    assert calls[|calls|..] == [] && out + [] == out;
  }

  method EndOfRun(calls: seq<ToolCall>, i: nat) returns (j: nat)
    requires i < |calls| && Mergeable(calls[i].op)
    ensures i < j <= |calls| && RunLength(calls[i..]) == j - i
  {
    j := i;
    while j < |calls| && Mergeable(calls[j].op)
      invariant i <= j <= |calls| && (j == i ==> Mergeable(calls[i].op))
      invariant forall k :: i <= k < j ==> Mergeable(calls[k].op)
    {
      j := j + 1;
    }
    RunFrom(calls, i, j);
  }

  method FuseOrKeep(segment: seq<ToolCall>, spareId: Id) returns (added: seq<ToolCall>)
    ensures added == FusedSegment(segment, spareId)
  {
    var merged := MergeMutationSegment(segment, spareId);
    added := if merged.Some? then [merged.value] else segment;
  }

  lemma ShortRound(calls: seq<ToolCall>, spareId: Id)
    requires |calls| <= 1
    ensures MergedCalls(calls, spareId) == calls
  {
    if calls != [] {
      assert calls[1..] == [] && calls[..1] == calls;
      assert MergedCalls([], spareId) == [];
    }
  }

  // ---------- nothing is lost or reordered ----------

  /** The round cut into the pieces that each become one call. */
  function Pieces(calls: seq<ToolCall>): seq<seq<ToolCall>>
    decreases |calls|
  {
    if calls == [] then []
    else
      var n := RunLength(calls);
      if n == 0 then [[calls[0]]] + Pieces(calls[1..])
      else (if Fusible(calls[..n]) then [calls[..n]] else Singly(calls[..n])) + Pieces(calls[n..])
  }

  function Singly(calls: seq<ToolCall>): seq<seq<ToolCall>>
  {
    seq(|calls|, i requires 0 <= i < |calls| => [calls[i]])
  }

  function Joined(pieces: seq<seq<ToolCall>>): seq<ToolCall>
  {
    if pieces == [] then [] else pieces[0] + Joined(pieces[1..])
  }

  /** A piece is one call, kept as it was, or two or more mergeable calls that parse, in one new batch. */
  predicate Becomes(piece: seq<ToolCall>, call: ToolCall, spareId: Id)
  {
    if |piece| == 1 then call == piece[0]
    else IsBatchOf(piece, call, spareId) && forall c :: c in piece ==> c.parses && Mergeable(c.op)
  }

  predicate AllBecome(pieces: seq<seq<ToolCall>>, out: seq<ToolCall>, spareId: Id)
  {
    |pieces| == |out| && forall i :: 0 <= i < |out| ==> Becomes(pieces[i], out[i], spareId)
  }

  lemma AllBecomeJoin(p: seq<seq<ToolCall>>, a: seq<ToolCall>, q: seq<seq<ToolCall>>, b: seq<ToolCall>, spareId: Id)
    requires AllBecome(p, a, spareId) && AllBecome(q, b, spareId)
    ensures AllBecome(p + q, a + b, spareId)
  {
  }

  lemma {:induction false} JoinedAppend(p: seq<seq<ToolCall>>, q: seq<seq<ToolCall>>)
    ensures Joined(p + q) == Joined(p) + Joined(q)
  {
    if p == [] {
      assert p + q == q;
    } else {
      assert (p + q)[1..] == p[1..] + q;
      JoinedAppend(p[1..], q);
    }
  }

  lemma {:induction false} JoinedSingly(calls: seq<ToolCall>)
    ensures Joined(Singly(calls)) == calls
  {
    if calls != [] {
      assert Singly(calls)[1..] == Singly(calls[1..]);
      JoinedSingly(calls[1..]);
    }
  }

  lemma JoinedOne(piece: seq<ToolCall>)
    ensures Joined([piece]) == piece
  {
    assert [piece][1..] == [] && Joined([]) == [];
  }

  lemma {:induction false} RunIsMergeable(calls: seq<ToolCall>)
    ensures forall k :: 0 <= k < RunLength(calls) ==> Mergeable(calls[k].op)
  {
    if calls != [] && Mergeable(calls[0].op) {
      RunIsMergeable(calls[1..]);
      assert forall k :: 1 <= k < RunLength(calls) ==> calls[k] == calls[1..][k - 1];
    }
  }

  /** The segment's pieces become the segment's calls. */
  lemma SegmentBecomes(segment: seq<ToolCall>, spareId: Id)
    requires forall k :: 0 <= k < |segment| ==> Mergeable(segment[k].op)
    ensures var pieces := if Fusible(segment) then [segment] else Singly(segment);
            AllBecome(pieces, FusedSegment(segment, spareId), spareId) && Joined(pieces) == segment
  {
    JoinedOne(segment);
    JoinedSingly(segment);
  }

  /** Fusing loses nothing: the round is cut into pieces that joined give back the original calls, and
      the fused round has one call for each piece. A single call, an original batch included, stays
      exactly as it was; a longer piece is a run of mutations in one new batch. */
  lemma {:induction false} FusingLosesNothing(calls: seq<ToolCall>, spareId: Id)
    ensures Joined(Pieces(calls)) == calls && AllBecome(Pieces(calls), MergedCalls(calls, spareId), spareId)
    decreases |calls|
  {
    if calls != [] {
      var n := RunLength(calls);
      var m := if n == 0 then 1 else n;
      var first, rest := calls[..m], calls[m..];
      var pieces := if n > 0 && Fusible(first) then [first] else Singly(first);
      FusingLosesNothing(rest, spareId);
      if n == 0 {
        assert first == [calls[0]] && Singly(first) == [[calls[0]]];
        JoinedSingly(first);
        assert AllBecome(pieces, first, spareId);
        AllBecomeJoin(pieces, first, Pieces(rest), MergedCalls(rest, spareId), spareId);
      } else {
        RunIsMergeable(calls);
        SegmentBecomes(first, spareId);
        AllBecomeJoin(pieces, FusedSegment(first, spareId), Pieces(rest), MergedCalls(rest, spareId), spareId);
      }
      JoinedAppend(pieces, Pieces(rest));
      assert calls == first + rest;
    }
  }

  // ---------- fusing preserves meaning ----------

  /** The calls of a segment executed one after the other, stopping at the first failure. */
  ghost function OneByOne(s: Stored, snap: Snapshot, next: nat, ops: seq<Op>, envs: seq<Surroundings>): CallOutcome
    requires |ops| == |envs|
    decreases |ops|
  {
    if ops == [] then CallOutcome(s, snap, next, Ok(NO_CHANGE))
    else
      var m := |ops| - 1;
      var before := OneByOne(s, snap, next, ops[..m], envs[..m]);
      if before.reply.Err? then before
      else ExecuteSnapshot(before.stored, before.snapshot, before.next, ops[m], envs[m])
  }

  /** What one by one success means for the run of the operations on the first snapshot. */
  ghost predicate Tracks(s: Stored, snap: Snapshot, run: Outcome, done: CallOutcome)
  {
    && run.reply.Ok? && done.snapshot.graph == run.graph && done.next == run.next
    && (if HasChanges(run.reply.result) then
          && PassesStrict(run.graph) && done.stored.graph == run.graph
          && done.snapshot.revision == done.stored.revision && (snap.revision >= 0 ==> snap.revision == s.revision)
        else done.stored == s && done.snapshot == snap)
  }

  /** One more call, after a run of which the same is known. */
  lemma OneMoreTracks(s: Stored, snap: Snapshot, run: Outcome, before: CallOutcome, op: Op, env: Surroundings)
    requires Tracks(s, snap, run, before) && !op.Batch?
    requires ExecuteSnapshot(before.stored, before.snapshot, before.next, op, env).reply.Ok?
    ensures SingleRefusal(op).None? && SingleOutcome(run.graph, run.next, op, Strict).reply.Ok?
    ensures var last := SingleOutcome(run.graph, run.next, op, Strict);
            Tracks(s, snap, last.(reply := Ok(Merge(run.reply.result, last.reply.result))),
                   ExecuteSnapshot(before.stored, before.snapshot, before.next, op, env))
  {
    CallEffect(before.stored, before.snapshot, before.next, op, env);
    PlanCounts(before.snapshot.graph, before.next, op);
  }

  lemma {:induction false} OneByOneTracks(s: Stored, snap: Snapshot, next: nat, ops: seq<Op>, envs: seq<Surroundings>)
    requires |ops| == |envs| && (forall o :: o in ops ==> !o.Batch?)
    ensures OneByOne(s, snap, next, ops, envs).reply.Ok? ==>
      && Tracks(s, snap, RunOps(snap.graph, next, ops, Strict), OneByOne(s, snap, next, ops, envs))
      && FirstBatchRefusal(ops).None?
    decreases |ops|
  {
    if ops != [] && OneByOne(s, snap, next, ops, envs).reply.Ok? {
      var m := |ops| - 1;
      assert ops[m] in ops;
      OneByOneTracks(s, snap, next, ops[..m], envs[..m]);
      OneMoreTracks(s, snap, RunOps(snap.graph, next, ops[..m], Strict),
                    OneByOne(s, snap, next, ops[..m], envs[..m]), ops[m], envs[m]);
    }
  }

  /** If every call of a segment of at most 50 would succeed one by one, the fused batch succeeds on
      the same supply, with the same final graph, and commits at most once. */
  lemma FusingPreservesMeaning(s: Stored, snap: Snapshot, next: nat, ops: seq<Op>, envs: seq<Surroundings>,
      env: Surroundings)
    requires 0 < |ops| <= MAX_BATCH && |ops| == |envs| && (forall o :: o in ops ==> Mergeable(o))
    requires env == Surroundings(Some(s.revision), true)
    ensures var apart, fused := OneByOne(s, snap, next, ops, envs),
                                ExecuteSnapshot(s, snap, next, Batch(ops, false), env);
            apart.reply.Ok? ==>
              && fused.reply.Ok?
              && fused.snapshot.graph == apart.snapshot.graph && fused.stored.graph == apart.stored.graph
              && fused.next == apart.next
              && fused.stored.revision == s.revision + if HasChanges(fused.reply.result) then 1 else 0
  {
    var op := Batch(ops, false);
    OneByOneTracks(s, snap, next, ops, envs);
    if OneByOne(s, snap, next, ops, envs).reply.Ok? {
      PlanCounts(snap.graph, next, op);
      MembersAreSingle(ops);
    }
  }

  /** Fusing does not look at the length: a segment that would succeed call by call succeeds as one
      batch exactly when it has at most 50 calls. */
  lemma FusedSucceedsIff(s: Stored, snap: Snapshot, next: nat, ops: seq<Op>, envs: seq<Surroundings>, env: Surroundings)
    requires ops != [] && |ops| == |envs| && (forall o :: o in ops ==> Mergeable(o))
    requires env == Surroundings(Some(s.revision), true)
    ensures OneByOne(s, snap, next, ops, envs).reply.Ok? ==>
      (ExecuteSnapshot(s, snap, next, Batch(ops, false), env).reply.Ok? <==> |ops| <= 50)
  {
    if |ops| <= MAX_BATCH {
      FusingPreservesMeaning(s, snap, next, ops, envs, env);
    } else {
      assert Refusal(Batch(ops, false)) == Some(InvalidParameters);
    }
  }

  // ---------- a whole round ----------

  /** The calls one after the other while nobody else writes and every write succeeds. */
  ghost function Calmly(s: Stored, snap: Snapshot, next: nat, ops: seq<Op>): CallOutcome
  {
    if ops == [] then CallOutcome(s, snap, next, Ok(NO_CHANGE))
    else
      var before := Calmly(s, snap, next, ops[..|ops| - 1]);
      if before.reply.Err? then before else CalmCall(before, ops[|ops| - 1])
  }

  ghost function CalmCall(at: CallOutcome, op: Op): CallOutcome
  {
    ExecuteSnapshot(at.stored, at.snapshot, at.next, op, Surroundings(Some(at.stored.revision), true))
  }

  /** The session's snapshot is the stored revision, if it names one. */
  predicate InStep(at: CallOutcome)
  {
    at.snapshot.revision >= 0 ==> at.snapshot.revision == at.stored.revision
  }

  /** The same graphs and supply; revisions may differ, since fusing commits less often. */
  predicate Alike(a: CallOutcome, b: CallOutcome)
  {
    && a.snapshot.graph == b.snapshot.graph && a.stored.graph == b.stored.graph && a.next == b.next
    && (InStep(a) <==> InStep(b))
  }

  /** A call that succeeds in some surroundings succeeds calmly from a like state, and leaves a like state. */
  lemma CallFromAlike(a: CallOutcome, b: CallOutcome, op: Op, env: Surroundings)
    requires Alike(a, b) && ExecuteSnapshot(a.stored, a.snapshot, a.next, op, env).reply.Ok?
    ensures CalmCall(b, op).reply.Ok? && Alike(ExecuteSnapshot(a.stored, a.snapshot, a.next, op, env), CalmCall(b, op))
  {
    CallEffect(a.stored, a.snapshot, a.next, op, env);
  }

  /** A fused piece does from a like state what its calls do one by one. */
  lemma PieceFromAlike(a: CallOutcome, b: CallOutcome, piece: seq<ToolCall>, call: ToolCall, spareId: Id,
                       envs: seq<Surroundings>)
    requires Alike(a, b) && IsBatchOf(piece, call, spareId) && |piece| <= MAX_BATCH && |piece| == |envs|
    requires forall c :: c in piece ==> Mergeable(c.op)
    ensures var done := OneByOne(a.stored, a.snapshot, a.next, OpsOf(piece), envs);
            done.reply.Ok? ==> CalmCall(b, call.op).reply.Ok? && Alike(done, CalmCall(b, call.op))
  {
    var ops := OpsOf(piece);
    assert call.op.ops == ops && call.op == Batch(ops, false);
    forall o | o in ops ensures Mergeable(o) {
      var i :| 0 <= i < |ops| && ops[i] == o;
      assert piece[i] in piece;
    }
    OneByOneTracks(a.stored, a.snapshot, a.next, ops, envs);
    BatchFromTracked(a, b, ops, OneByOne(a.stored, a.snapshot, a.next, ops, envs));
  }

  lemma BatchFromTracked(a: CallOutcome, b: CallOutcome, ops: seq<Op>, done: CallOutcome)
    requires Alike(a, b) && 0 < |ops| <= MAX_BATCH
    ensures FirstBatchRefusal(ops).None?
            && Tracks(a.stored, a.snapshot, RunOps(a.snapshot.graph, a.next, ops, Strict), done) ==>
              CalmCall(b, Batch(ops, false)).reply.Ok? && Alike(done, CalmCall(b, Batch(ops, false)))
  {
    var op := Batch(ops, false);
    if FirstBatchRefusal(ops).None? && RunOps(a.snapshot.graph, a.next, ops, Strict).reply.Ok? {
      PlanCounts(b.snapshot.graph, b.next, op);
      CallEffect(b.stored, b.snapshot, b.next, op, Surroundings(Some(b.stored.revision), true));
    }
  }

  lemma {:induction false} OneByOneSplits(s: Stored, snap: Snapshot, next: nat, ops: seq<Op>, more: seq<Op>,
                                          envs: seq<Surroundings>, rest: seq<Surroundings>)
    requires |ops| == |envs| && |more| == |rest|
    ensures OneByOne(s, snap, next, ops + more, envs + rest).reply.Ok? ==>
      var a := OneByOne(s, snap, next, ops, envs);
      var b := OneByOne(a.stored, a.snapshot, a.next, more, rest);
      a.reply.Ok? && b.reply.Ok? && OneByOne(s, snap, next, ops + more, envs + rest) == if more == [] then a else b
    decreases |more|
  {
    if more == [] {
      assert ops + more == ops && envs + rest == envs;
    } else {
      var m := |more| - 1;
      assert (ops + more)[..|ops + more| - 1] == ops + more[..m];
      assert (envs + rest)[..|ops + more| - 1] == envs + rest[..m];
      OneByOneSplits(s, snap, next, ops, more[..m], envs, rest[..m]);
    }
  }

  lemma OpsOfAppend(p: seq<ToolCall>, q: seq<ToolCall>)
    ensures OpsOf(p + q) == OpsOf(p) + OpsOf(q)
  {
  }

  /** One piece further. */
  lemma PieceStep(a: CallOutcome, b: CallOutcome, piece: seq<ToolCall>, call: ToolCall, spareId: Id,
                  envs: seq<Surroundings>)
    requires Alike(a, b) && Becomes(piece, call, spareId) && |piece| <= MAX_BATCH && |piece| == |envs|
    ensures var done := OneByOne(a.stored, a.snapshot, a.next, OpsOf(piece), envs);
            done.reply.Ok? ==> CalmCall(b, call.op).reply.Ok? && Alike(done, CalmCall(b, call.op))
  {
    if |piece| == 1 {
      assert OpsOf(piece)[..0] == [] && envs[..0] == [];
      assert OneByOne(a.stored, a.snapshot, a.next, [], []) == CallOutcome(a.stored, a.snapshot, a.next, Ok(NO_CHANGE));
      if OneByOne(a.stored, a.snapshot, a.next, OpsOf(piece), envs).reply.Ok? {
        CallFromAlike(a, b, call.op, envs[0]);
      }
    } else {
      PieceFromAlike(a, b, piece, call, spareId, envs);
    }
  }

  /** A run of calls and one more piece, against a like state and the piece's call. */
  lemma OnePieceMore(at: CallOutcome, joined: seq<Op>, piece: seq<ToolCall>, first: seq<Surroundings>,
                     rest: seq<Surroundings>, b: CallOutcome, call: ToolCall, spareId: Id)
    requires |joined| == |first| && |piece| == |rest| && piece != [] && |piece| <= MAX_BATCH
    requires Becomes(piece, call, spareId)
    ensures var done := OneByOne(at.stored, at.snapshot, at.next, joined + OpsOf(piece), first + rest);
            done.reply.Ok? && Alike(OneByOne(at.stored, at.snapshot, at.next, joined, first), b) ==>
              CalmCall(b, call.op).reply.Ok? && Alike(done, CalmCall(b, call.op))
  {
    OneByOneSplits(at.stored, at.snapshot, at.next, joined, OpsOf(piece), first, rest);
    if Alike(OneByOne(at.stored, at.snapshot, at.next, joined, first), b) {
      PieceStep(OneByOne(at.stored, at.snapshot, at.next, joined, first), b, piece, call, spareId, rest);
    }
  }

  lemma LastPiece(pieces: seq<seq<ToolCall>>)
    requires pieces != []
    ensures Joined(pieces) == Joined(pieces[..|pieces| - 1]) + pieces[|pieces| - 1]
  {
    assert pieces == pieces[..|pieces| - 1] + [pieces[|pieces| - 1]];
    JoinedAppend(pieces[..|pieces| - 1], [pieces[|pieces| - 1]]);
    JoinedOne(pieces[|pieces| - 1]);
  }

  lemma CalmlyLast(at: CallOutcome, out: seq<ToolCall>)
    requires out != []
    ensures var before := Calmly(at.stored, at.snapshot, at.next, OpsOf(out[..|out| - 1]));
            before.reply.Ok? ==>
              Calmly(at.stored, at.snapshot, at.next, OpsOf(out)) == CalmCall(before, out[|out| - 1].op)
  {
    assert OpsOf(out)[..|out| - 1] == OpsOf(out[..|out| - 1]);
  }

  lemma {:induction false} PiecesPreserve(at: CallOutcome, pieces: seq<seq<ToolCall>>, out: seq<ToolCall>, spareId: Id,
                                          envs: seq<Surroundings>)
    requires AllBecome(pieces, out, spareId) && (forall i :: 0 <= i < |pieces| ==> 0 < |pieces[i]| <= MAX_BATCH)
    requires |Joined(pieces)| == |envs|
    ensures var done := OneByOne(at.stored, at.snapshot, at.next, OpsOf(Joined(pieces)), envs);
            var calm := Calmly(at.stored, at.snapshot, at.next, OpsOf(out));
            done.reply.Ok? ==> calm.reply.Ok? && Alike(done, calm)
    decreases |pieces|
  {
    if pieces != [] && OneByOne(at.stored, at.snapshot, at.next, OpsOf(Joined(pieces)), envs).reply.Ok? {
      var n := |pieces| - 1;
      var joined := Joined(pieces[..n]);
      var k := |joined|;
      LastPiece(pieces);
      OpsOfAppend(joined, pieces[n]);
      assert envs == envs[..k] + envs[k..];
      OneByOneSplits(at.stored, at.snapshot, at.next, OpsOf(joined), OpsOf(pieces[n]), envs[..k], envs[k..]);
      PiecesPreserve(at, pieces[..n], out[..n], spareId, envs[..k]);
      OnePieceMore(at, OpsOf(joined), pieces[n], envs[..k], envs[k..],
                   Calmly(at.stored, at.snapshot, at.next, OpsOf(out[..n])), out[n], spareId);
      CalmlyLast(at, out);
    }
  }

  /** Fusing a whole round preserves its meaning: when its calls, whatever they are, succeed one by one and no
      run of mutations is longer than 50, the calls that MergeRoundMutationCalls returns succeed too while
      nobody else writes, and leave the same graphs and the same supply. */
  lemma RoundPreservesMeaning(s: Stored, snap: Snapshot, next: nat, calls: seq<ToolCall>, spareId: Id,
                              envs: seq<Surroundings>)
    requires |calls| == |envs| && OneByOne(s, snap, next, OpsOf(calls), envs).reply.Ok?
    requires forall i :: 0 <= i < |Pieces(calls)| ==> |Pieces(calls)[i]| <= MAX_BATCH
    ensures var apart, fused := OneByOne(s, snap, next, OpsOf(calls), envs),
                                Calmly(s, snap, next, OpsOf(MergedCalls(calls, spareId)));
            && fused.reply.Ok? && fused.next == apart.next
            && fused.snapshot.graph == apart.snapshot.graph && fused.stored.graph == apart.stored.graph
  {
    FusingLosesNothing(calls, spareId);
    forall i | 0 <= i < |Pieces(calls)| ensures Pieces(calls)[i] != [] {
      assert Becomes(Pieces(calls)[i], MergedCalls(calls, spareId)[i], spareId);
    }
    var start := CallOutcome(s, snap, next, Ok(NO_CHANGE));
    PiecesPreserve(start, Pieces(calls), MergedCalls(calls, spareId), spareId, envs);
  }

  /** No other single operation changes the graph, and the fusible ones are exactly the six that may. */
  lemma MergeableAreTheMutations(g: Graph, next: nat, op: Op, mode: Mode)
    requires !op.Batch?
    ensures !Mergeable(op) ==> SingleOutcome(g, next, op, mode).graph == g
    ensures Mergeable(op) <==>
            !(op.GetGraphSnapshot? || op.GetNodeDetail? || op.GetSubtree? || op.CheckGateSemantics?
              || op.ValidateConstraints? || op.OtherTool? || op.UnregisteredTool?)
  {
  }

  // ---------- which calls are fused ----------

  /** A run of mutations that begins at i and ends before j, with no mutation on either side. */
  predicate MaximalRun(calls: seq<ToolCall>, i: nat, j: nat)
  {
    && i < j <= |calls| && (forall k :: i <= k < j ==> Mergeable(calls[k].op))
    && (i > 0 ==> !Mergeable(calls[i - 1].op)) && (j < |calls| ==> !Mergeable(calls[j].op))
  }

  /** Not in the middle of a run of mutations. */
  predicate Boundary(calls: seq<ToolCall>, i: nat)
    requires i <= |calls|
  {
    i == 0 || i == |calls| || !Mergeable(calls[i - 1].op) || !Mergeable(calls[i].op)
  }

  lemma {:induction false} RunEnds(calls: seq<ToolCall>)
    ensures RunLength(calls) < |calls| ==> !Mergeable(calls[RunLength(calls)].op)
  {
    if calls != [] && Mergeable(calls[0].op) {
      RunEnds(calls[1..]);
    }
  }

  lemma RunStopsAtBoundary(calls: seq<ToolCall>, k: nat, i: nat, n: nat)
    requires k < i <= |calls| && Boundary(calls, i) && n == RunLength(calls[k..])
    ensures k + n <= i && (n == 0 <==> !Mergeable(calls[k].op))
  {
    var rest := calls[k..];
    RunIsMergeable(rest);
    RunEnds(rest);
    assert forall m :: 0 <= m < |rest| ==> rest[m] == calls[k + m];
  }

  lemma OneRunMore(whole: seq<ToolCall>, before: seq<ToolCall>, calls: seq<ToolCall>, k: nat, j: nat, spareId: Id)
      returns (before': seq<ToolCall>)
    requires k < j <= |calls| && RunLength(calls[k..]) == j - k && before + MergedCalls(calls[k..], spareId) == whole
    ensures before' + MergedCalls(calls[j..], spareId) == whole
  {
    RunStep(whole, before, calls, k, j, spareId);
    before' := before + FusedSegment(calls[k..j], spareId);
  }

  /** One call that is no mutation, or one run of mutations, further. */
  lemma OneLeadMore(whole: seq<ToolCall>, before: seq<ToolCall>, calls: seq<ToolCall>, k: nat, i: nat, spareId: Id)
      returns (before': seq<ToolCall>, k': nat)
    requires k < i <= |calls| && Boundary(calls, i) && before + MergedCalls(calls[k..], spareId) == whole
    ensures k < k' <= i && before' + MergedCalls(calls[k'..], spareId) == whole
  {
    var n := RunLength(calls[k..]);
    RunStopsAtBoundary(calls, k, i, n);
    if n == 0 {
      k', before' := k + 1, before + [calls[k]];
      SingleStep(whole, before, calls, k, spareId);
    } else {
      k' := k + n;
      before' := OneRunMore(whole, before, calls, k, k', spareId);
    }
  }

  /** What the calls before a boundary become comes before what the calls after it become. */
  lemma BeforeBoundary(calls: seq<ToolCall>, i: nat, spareId: Id) returns (before: seq<ToolCall>)
    requires i <= |calls| && Boundary(calls, i)
    ensures MergedCalls(calls, spareId) == before + MergedCalls(calls[i..], spareId)
  {
    var whole := MergedCalls(calls, spareId);
    var k := 0;
    before := [];
    assert calls[0..] == calls;
    while k < i
      invariant 0 <= k <= i && before + MergedCalls(calls[k..], spareId) == whole
    {
      before, k := OneLeadMore(whole, before, calls, k, i, spareId);
    }
  }

  lemma FusedWhenParsed(run: seq<ToolCall>, spareId: Id)
    requires run != []
    ensures if |run| > 1 && (forall k :: 0 <= k < |run| ==> run[k].parses)
            then |FusedSegment(run, spareId)| == 1 && IsBatchOf(run, FusedSegment(run, spareId)[0], spareId)
            else FusedSegment(run, spareId) == run
  {
    if c :| c in run && !c.parses {
      var k :| 0 <= k < |run| && run[k] == c;
    } else {
      assert forall k :: 0 <= k < |run| ==> run[k] in run;
    }
  }

  /** Every maximal run of two or more mutations that parse becomes one batch of exactly these calls; of any
      other maximal run every call stays; in both cases between what the calls before and after it become. */
  lemma MaximalRunsAreFused(calls: seq<ToolCall>, i: nat, j: nat, spareId: Id)
      returns (before: seq<ToolCall>, middle: seq<ToolCall>)
    requires MaximalRun(calls, i, j)
    ensures MergedCalls(calls, spareId) == (before + middle) + MergedCalls(calls[j..], spareId)
    ensures if j - i > 1 && (forall k :: 0 <= k < j - i ==> calls[i..j][k].parses)
            then |middle| == 1 && IsBatchOf(calls[i..j], middle[0], spareId) else middle == calls[i..j]
  {
    before := BeforeBoundary(calls, i, spareId);
    RunFrom(calls, i, j);
    RunStep(MergedCalls(calls, spareId), before, calls, i, j, spareId);
    middle := FusedSegment(calls[i..j], spareId);
    FusedWhenParsed(calls[i..j], spareId);
  }

  // ---------- a segment that is too long ----------

  const IDLE := UpdateNode(Id(0), None, None, None)

  function Idle(n: nat): seq<Op>
  {
    seq(n, i requires 0 <= i < n => IDLE)
  }

  lemma IdleCall(s: Stored, snap: Snapshot, next: nat, env: Surroundings)
    requires snap.graph == TOP_ALONE
    ensures ExecuteSnapshot(s, snap, next, IDLE, env) == CallOutcome(s, snap, next, Ok(NO_CHANGE))
  {
    assert Position(TOP_ALONE.nodes, Id(0)) == Some(0);
  }

  /** Updates without a field succeed one by one, any number of them. */
  lemma {:induction false} IdleOneByOne(s: Stored, snap: Snapshot, next: nat, env: Surroundings, n: nat)
    requires snap.graph == TOP_ALONE
    ensures OneByOne(s, snap, next, Idle(n), seq(n, i requires 0 <= i < n => env))
            == CallOutcome(s, snap, next, Ok(NO_CHANGE))
  {
    if n > 0 {
      assert Idle(n)[..n - 1] == Idle(n - 1);
      assert seq(n, i requires 0 <= i < n => env)[..n - 1] == seq(n - 1, i requires 0 <= i < n - 1 => env);
      IdleOneByOne(s, snap, next, env, n - 1);
      IdleCall(s, snap, next, env);
    }
  }

  /** A concrete segment that succeeds call by call and fails once fused: 51 updates without a field. */
  lemma LongSegmentFails(s: Stored, snap: Snapshot, next: nat, env: Surroundings)
    requires snap.graph == TOP_ALONE
    ensures OneByOne(s, snap, next, Idle(51), seq(51, i requires 0 <= i < 51 => env)).reply.Ok?
    ensures ExecuteSnapshot(s, snap, next, Batch(Idle(51), false), env).reply == Err(InvalidParameters)
  {
    IdleOneByOne(s, snap, next, env, 51);
    assert Refusal(Batch(Idle(51), false)) == Some(InvalidParameters);
  }
}
