/** The agent's runtime guard: budgets, and repetition detection with a bounded history and a bounded
    number of soft warnings per pattern. */
module LoopGuard {
  import opened Basics

  datatype Tool =
    | GetGraphSnapshot | GetNodeDetail | GetSubtree
    | CheckGateSemantics | ValidateConstraints
    | UpdateNode | UpdateGate | AddNode | AddGate | DeleteNode | MoveNode | BatchOperations
    | Unlisted(name: nat)

  datatype Kind = Read | Validate | Mutation | Other

  /** A decoded call: arguments up to canonical form, and the node and gate type they name, if any. */
  datatype Call = Call(tool: Tool, args: nat, node: Option<nat>, gateType: Option<nat>)

  datatype Fingerprint = Fingerprint(tool: Tool, args: nat, node: Option<nat>, gateType: Option<nat>)

  datatype Shape = Abab | ReadValidate | GateToggle | ReadStreak

  /** What soft warnings are counted by. */
  datatype Key = OfCall(call: Fingerprint) | OfPattern(shape: Shape, a: Fingerprint, b: Fingerprint, c: Fingerprint,
      d: Fingerprint)

  datatype Config = Config(maxToolCalls: int, rateLimit: int, softWarnings: bool, maxNodes: int)

  datatype Refusal = SessionInactive | MaxToolCalls | RateLimited | LoopDetected | NodeLimitExceeded

  datatype Answer = Pass | LoopWarning | StreakWarning | Refused(why: Refusal)

  /** What the guard remembers of one session. */
  datatype Guard = Guard(round: int, used: map<Kind, nat>, history: seq<Fingerprint>, warnings: map<Key, nat>,
      mutations: int)

  /** One check: whether the session is active and named, its tool calls so far, the call, and the
      estimated node mutations. */
  datatype Attempt = Attempt(active: bool, named: bool, made: int, call: Call, estimate: int)

  const HISTORY_WINDOW := 16
  const MAX_WARNINGS := 2
  const STREAK := 4

  function KindOf(tool: Tool): Kind
  {
    match tool
    case GetGraphSnapshot | GetNodeDetail | GetSubtree => Read
    case CheckGateSemantics | ValidateConstraints => Validate
    case UpdateNode | UpdateGate | AddNode | AddGate | DeleteNode | MoveNode | BatchOperations => Mutation
    case Unlisted(_) => Other
  }

  predicate ReadOrValidate(f: Fingerprint)
  {
    KindOf(f.tool) == Read || KindOf(f.tool) == Validate
  }

  function FingerprintOf(call: Call): Fingerprint
  {
    if call.tool == UpdateGate then Fingerprint(call.tool, call.args, call.node, call.gateType)
    else Fingerprint(call.tool, call.args, None, None)
  }

  function Count<K>(m: map<K, nat>, k: K): nat
  {
    if k in m then m[k] else 0
  }

  function Counted<K>(m: map<K, nat>, k: K): map<K, nat>
  {
    m[k := Count(m, k) + 1]
  }

  // ---------- repetition ----------

  predicate IsAbab(a: Fingerprint, b: Fingerprint, c: Fingerprint, d: Fingerprint)
  {
    a == c && b == d && !(ReadOrValidate(a) && ReadOrValidate(b))
  }

  predicate IsReadValidate(a: Fingerprint, b: Fingerprint, c: Fingerprint, d: Fingerprint)
  {
    a == c && b == d && ReadOrValidate(a) && ReadOrValidate(b) && KindOf(a.tool) != KindOf(b.tool)
  }

  /** Two gate types set in turn on one gate, whatever the other arguments. */
  predicate IsGateToggle(a: Fingerprint, b: Fingerprint, c: Fingerprint, d: Fingerprint)
  {
    && a.tool == b.tool == c.tool == d.tool == UpdateGate
    && a.node.Some? && a.node == b.node == c.node == d.node
    && a.gateType.Some? && b.gateType.Some?
    && a.gateType == c.gateType && b.gateType == d.gateType && a.gateType != b.gateType
  }

  /** The i-th last entry. */
  function Back(h: seq<Fingerprint>, i: nat): Fingerprint
    requires i < |h|
  {
    h[|h| - 1 - i]
  }

  predicate EarlyDuplicate(h: seq<Fingerprint>)
  {
    |h| >= 2 && Back(h, 0) == Back(h, 1)
  }

  /** Four reads or validations in a row that are not all the same call. */
  predicate Streak(h: seq<Fingerprint>)
  {
    && |h| >= STREAK
    && ReadOrValidate(Back(h, 0)) && ReadOrValidate(Back(h, 1)) && ReadOrValidate(Back(h, 2)) &&
      ReadOrValidate(Back(h, 3))
    && !(Back(h, 0) == Back(h, 1) == Back(h, 2) == Back(h, 3))
  }

  function LastFour(shape: Shape, h: seq<Fingerprint>): Key
    requires |h| >= 4
  {
    OfPattern(shape, Back(h, 3), Back(h, 2), Back(h, 1), Back(h, 0))
  }

  /** The repetition the history ends in, if any: three equal calls before the patterns of four. */
  function Repetition(h: seq<Fingerprint>): Option<Key>
  {
    if |h| >= 3 && Back(h, 0) == Back(h, 1) == Back(h, 2) then Some(OfCall(Back(h, 0)))
    else if |h| < 4 then None
    else if IsAbab(Back(h, 3), Back(h, 2), Back(h, 1), Back(h, 0)) then Some(LastFour(Abab, h))
    else if IsReadValidate(Back(h, 3), Back(h, 2), Back(h, 1), Back(h, 0)) then Some(LastFour(ReadValidate, h))
    else if IsGateToggle(Back(h, 3), Back(h, 2), Back(h, 1), Back(h, 0)) then Some(LastFour(GateToggle, h))
    else None
  }

  /** Spends a token; the warning is due while fewer than two were spent. */
  function Spend(w: map<Key, nat>, due: bool, k: Key): (map<Key, nat>, bool)
  {
    if due then (Counted(w, k), Count(w, k) < MAX_WARNINGS) else (w, false)
  }

  /** The verdict on a history that has just been extended, and the tokens spent on it. */
  function Judge(soft: bool, w: map<Key, nat>, h: seq<Fingerprint>): (map<Key, nat>, Answer)
    requires |h| > 0
  {
    var (w1, duplicate) := Spend(w, soft && EarlyDuplicate(h), OfCall(Back(h, 0)));
    if duplicate then (w1, LoopWarning)
    else if Streak(h) then
      var (w2, streak) := Spend(w1, soft, LastFour(ReadStreak, h));
      if streak then (w2, StreakWarning) else Verdict(soft, w2, Repetition(h))
    else Verdict(soft, w1, Repetition(h))
  }

  function Verdict(soft: bool, w: map<Key, nat>, found: Option<Key>): (map<Key, nat>, Answer)
  {
    if found.None? then (w, Pass)
    else
      var (w', warn) := Spend(w, soft, found.value);
      (w', if warn then LoopWarning else Refused(LoopDetected))
  }

  // ---------- one check ----------

  function Screening(cfg: Config, g: Guard, a: Attempt): Option<Refusal>
  {
    if !a.active then Some(SessionInactive)
    else if cfg.maxToolCalls > 0 && a.made >= cfg.maxToolCalls then Some(MaxToolCalls)
    else if !a.named then Some(SessionInactive)
    else if cfg.rateLimit > 0 && Count(g.used, KindOf(a.call.tool)) >= cfg.rateLimit then Some(RateLimited)
    else None
  }

  function Extended(h: seq<Fingerprint>, f: Fingerprint): (r: seq<Fingerprint>)
    ensures |r| > 0
  {
    var longer := h + [f];
    if |longer| > HISTORY_WINDOW then longer[|longer| - HISTORY_WINDOW..] else longer
  }

  function AddMutations(cfg: Config, g: Guard, changed: int): (Guard, Answer)
  {
    if changed <= 0 || cfg.maxNodes <= 0 then (g, Pass)
    else if g.mutations + changed > cfg.maxNodes then (g, Refused(NodeLimitExceeded))
    else (g.(mutations := g.mutations + changed), Pass)
  }

  function Check(cfg: Config, g: Guard, a: Attempt): (Guard, Answer)
  {
    var screened := Screening(cfg, g, a);
    if screened.Some? then (g, Refused(screened.value))
    else
      var history := Extended(g.history, FingerprintOf(a.call));
      var (warnings, answer) := Judge(cfg.softWarnings, g.warnings, history);
      var used := if cfg.rateLimit > 0 then Counted(g.used, KindOf(a.call.tool)) else g.used;
      var g' := g.(used := used, history := history, warnings := warnings);
      if answer != Pass then (g', answer) else AddMutations(cfg, g', a.estimate)
  }

  // ---------- what repetition does to the memory ----------

  datatype Memory = Memory(history: seq<Fingerprint>, warnings: map<Key, nat>)

  /** The part of a check that depends on earlier calls. */
  function Remember(soft: bool, m: Memory, f: Fingerprint): (Memory, Answer)
  {
    var h := Extended(m.history, f);
    var (w, answer) := Judge(soft, m.warnings, h);
    (Memory(h, w), answer)
  }

  /** The answer to the n-th of the calls x, y, x, y, … (x, x, x, … when they are equal). */
  function TurnAnswer(soft: bool, m: Memory, x: Fingerprint, y: Fingerprint, n: nat): Answer
    requires n > 0
    decreases n
  {
    var (m', answer) := Remember(soft, m, x);
    if n == 1 then answer else TurnAnswer(soft, m', y, x, n - 1)
  }

  /** The last k entries (at most three) are …, y, x, y: now it is x's turn. */
  predicate Ready(h: seq<Fingerprint>, x: Fingerprint, y: Fingerprint, k: nat)
  {
    && |h| >= k
    && (k >= 1 ==> Back(h, 0) == y)
    && (k >= 2 ==> Back(h, 1) == x)
    && (k >= 3 ==> Back(h, 2) == y)
  }

  lemma ExtendedBack(h: seq<Fingerprint>, f: Fingerprint, back: nat)
    requires back < |h| && back < HISTORY_WINDOW - 1
    ensures var h' := Extended(h, f); back + 1 < |h'| && Back(h', 0) == f && Back(h', back + 1) == Back(h, back)
  {
  }

  lemma ReadyNext(h: seq<Fingerprint>, x: Fingerprint, y: Fingerprint, k: nat)
    requires Ready(h, x, y, k) && k <= 3
    ensures Ready(Extended(h, x), y, x, if k < 3 then k + 1 else 3)
    ensures k == 3 ==> EndsInTurns(Extended(h, x), y, x)
  {
    if k >= 1 {
      ExtendedBack(h, x, 0);
    }
    if k >= 2 {
      ExtendedBack(h, x, 1);
    }
    if k >= 3 {
      ExtendedBack(h, x, 2);
    }
  }

  predicate EndsInTurns(h: seq<Fingerprint>, a: Fingerprint, b: Fingerprint)
  {
    |h| >= 4 && Back(h, 0) == b && Back(h, 1) == a && Back(h, 2) == b && Back(h, 3) == a
  }

  // one call over and over

  lemma JudgeRepeat(soft: bool, w: map<Key, nat>, h: seq<Fingerprint>, f: Fingerprint)
    requires |h| > 0 && Back(h, 0) == f
    ensures var (w', answer) := Judge(soft, w, h);
            && (|h| >= 2 && Back(h, 1) == f && soft ==> Count(w', OfCall(f)) > Count(w, OfCall(f)))
            && Count(w', OfCall(f)) >= Count(w, OfCall(f))
            && (EndsInTurns(h, f, f) && (soft ==> Count(w, OfCall(f)) >= MAX_WARNINGS)
              ==> answer == Refused(LoopDetected))
  {
  }

  /** With k calls of the repetition already made and t tokens spent on it. */
  lemma {:induction false} RepeatIsStopped(m: Memory, f: Fingerprint, n: nat, k: nat, t: nat)
    requires n >= 1 && k <= 3 && Ready(m.history, f, f, k) && Count(m.warnings, OfCall(f)) >= t
    requires k + n >= 4 && t + n >= (if k == 0 then 4 else 3)
    ensures TurnAnswer(true, m, f, f, n) == Refused(LoopDetected)
    decreases n
  {
    ReadyNext(m.history, f, f, k);
    JudgeRepeat(true, m.warnings, Extended(m.history, f), f);
    if n > 1 {
      var m' := Remember(true, m, f).0;
      RepeatIsStopped(m', f, n - 1, if k < 3 then k + 1 else 3, if k == 0 then t else t + 1);
    }
  }

  lemma HardRepeat(w: map<Key, nat>, h: seq<Fingerprint>, f: Fingerprint)
    requires Ready(h, f, f, 3)
    ensures Judge(false, w, h) == (w, Refused(LoopDetected))
  {
  }

  /** Without soft warnings. */
  lemma {:induction false} RepeatIsStoppedHard(m: Memory, f: Fingerprint, n: nat, k: nat)
    requires n >= 1 && k <= 3 && Ready(m.history, f, f, k) && k + n >= 3
    ensures TurnAnswer(false, m, f, f, n) == Refused(LoopDetected)
    decreases n
  {
    ReadyNext(m.history, f, f, k);
    if n > 1 {
      RepeatIsStoppedHard(Remember(false, m, f).0, f, n - 1, if k < 3 then k + 1 else 3);
    } else {
      HardRepeat(m.warnings, Extended(m.history, f), f);
    }
  }

  // two calls in turn

  predicate BothReadOrValidate(a: Fingerprint, b: Fingerprint)
  {
    ReadOrValidate(a) && ReadOrValidate(b)
  }

  /** The repetition an alternation counts as. */
  function Found(a: Fingerprint, b: Fingerprint): Option<Shape>
  {
    if !BothReadOrValidate(a, b) then Some(Abab) else if KindOf(a.tool) != KindOf(b.tool) then Some(ReadValidate)
    else None
  }

  function Four(shape: Shape, a: Fingerprint, b: Fingerprint): Key
  {
    OfPattern(shape, a, b, a, b)
  }

  /** The verdict on a history that ends in two different calls in turn. */
  lemma JudgeTurns(soft: bool, w: map<Key, nat>, h: seq<Fingerprint>, a: Fingerprint, b: Fingerprint)
    requires a != b && EndsInTurns(h, a, b)
    ensures Judge(soft, w, h) == JudgedTurns(soft, w, a, b)
  {
    assert !EarlyDuplicate(h);
    assert Streak(h) <==> BothReadOrValidate(a, b);
    assert !IsGateToggle(a, b, a, b) || !BothReadOrValidate(a, b);
    assert Repetition(h) == if Found(a, b).Some? then Some(Four(Found(a, b).value, a, b)) else None;
  }

  function JudgedTurns(soft: bool, w: map<Key, nat>, a: Fingerprint, b: Fingerprint): (map<Key, nat>, Answer)
  {
    var (w1, streak) := Spend(w, soft && BothReadOrValidate(a, b), Four(ReadStreak, a, b));
    if streak then (w1, StreakWarning)
    else Verdict(soft, w1, if Found(a, b).Some? then Some(Four(Found(a, b).value, a, b)) else None)
  }

  /** Tokens that the next call (x, after y) and the one after it find spent. */
  predicate Spent(w: map<Key, nat>, shape: Shape, x: Fingerprint, y: Fingerprint, t: nat, u: nat)
  {
    Count(w, Four(shape, y, x)) >= t && Count(w, Four(shape, x, y)) >= u
  }

  /** One call of an alternation in full swing. */
  lemma TurnStep(m: Memory, x: Fingerprint, y: Fingerprint)
    requires x != y && Ready(m.history, x, y, 3)
    ensures var (m', answer) := Remember(true, m, x);
            Ready(m'.history, y, x, 3) && (m'.warnings, answer) == JudgedTurns(true, m.warnings, y, x)
  {
    ReadyNext(m.history, x, y, 3);
    JudgeTurns(true, m.warnings, Extended(m.history, x), y, x);
  }

  lemma AbabJudged(w: map<Key, nat>, x: Fingerprint, y: Fingerprint, t: nat, u: nat)
    requires x != y && !BothReadOrValidate(y, x) && Spent(w, Abab, x, y, t, u)
    ensures var (w', answer) := JudgedTurns(true, w, y, x);
            Spent(w', Abab, y, x, u, t + 1) && (t >= 2 ==> answer == Refused(LoopDetected))
  {
  }

  lemma {:induction false} AbabIsStopped(m: Memory, x: Fingerprint, y: Fingerprint, n: nat, t: nat, u: nat)
    requires x != y && !BothReadOrValidate(x, y) && n >= 1
    requires Ready(m.history, x, y, 3) && Spent(m.warnings, Abab, x, y, t, u)
    requires if n % 2 == 1 then t + n / 2 >= 2 else u + n / 2 >= 3
    ensures TurnAnswer(true, m, x, y, n) == Refused(LoopDetected)
    decreases n
  {
    TurnStep(m, x, y);
    AbabJudged(m.warnings, x, y, t, u);
    if n > 1 {
      AbabIsStopped(Remember(true, m, x).0, y, x, n - 1, u, t + 1);
    }
  }

  /** Streak warnings first; the pattern's own tokens are spent once both of those are gone. */
  lemma ReadValidateJudged(w: map<Key, nat>, x: Fingerprint, y: Fingerprint, t: nat, u: nat, t': nat, u': nat)
    requires x != y && BothReadOrValidate(y, x) && KindOf(x.tool) != KindOf(y.tool)
    requires Spent(w, ReadStreak, x, y, t, u) && Spent(w, ReadValidate, x, y, t', u')
    ensures var (w', answer) := JudgedTurns(true, w, y, x);
            && Spent(w', ReadStreak, y, x, u, t + 1) && Spent(w', ReadValidate, y, x, u', if t >= 2 then t' + 1 else t')
            && (t >= 2 && t' >= 2 ==> answer == Refused(LoopDetected))
  {
  }

  lemma {:induction false} ReadValidateIsStopped(m: Memory, x: Fingerprint, y: Fingerprint, n: nat, t: nat, u: nat,
      t': nat, u': nat)
    requires x != y && BothReadOrValidate(x, y) && KindOf(x.tool) != KindOf(y.tool) && n >= 1
    requires Ready(m.history, x, y, 3) && Spent(m.warnings, ReadStreak, x, y, t, u) &&
            Spent(m.warnings, ReadValidate, x, y, t', u')
    requires t <= 2 && u <= 2
    requires if n % 2 == 1 then t + t' + n / 2 >= 4 else u + u' + n / 2 >= 5
    requires t' <= 2 && u' <= 2
    ensures TurnAnswer(true, m, x, y, n) == Refused(LoopDetected)
    decreases n
  {
    TurnStep(m, x, y);
    ReadValidateJudged(m.warnings, x, y, t, u, t', u');
    if n > 1 {
      var more := if t < 2 then t + 1 else 2;
      var more' := if t >= 2 && t' < 2 then t' + 1 else t';
      ReadValidateIsStopped(Remember(true, m, x).0, y, x, n - 1, u, more, u', more');
    }
  }

  lemma {:induction false} SameKindGoesOn(m: Memory, x: Fingerprint, y: Fingerprint, n: nat)
    requires x != y && BothReadOrValidate(x, y) && KindOf(x.tool) == KindOf(y.tool) && n >= 1
    requires Ready(m.history, x, y, 3)
    ensures TurnAnswer(true, m, x, y, n) != Refused(LoopDetected)
    decreases n
  {
    TurnStep(m, x, y);
    if n > 1 {
      SameKindGoesOn(Remember(true, m, x).0, y, x, n - 1);
    }
  }

  /** After three calls an alternation is in full swing. */
  lemma WarmUp(m: Memory, x: Fingerprint, y: Fingerprint, n: nat) returns (m': Memory)
    requires n >= 4
    ensures Ready(m'.history, y, x, 3) && TurnAnswer(true, m, x, y, n) == TurnAnswer(true, m', y, x, n - 3)
  {
    ReadyNext(m.history, x, y, 0);
    var m1 := Remember(true, m, x).0;
    ReadyNext(m1.history, y, x, 1);
    var m2 := Remember(true, m1, y).0;
    ReadyNext(m2.history, x, y, 2);
    m' := Remember(true, m2, x).0;
    assert TurnAnswer(true, m, x, y, n) == TurnAnswer(true, m1, y, x, n - 1);
    assert TurnAnswer(true, m1, y, x, n - 1) == TurnAnswer(true, m2, x, y, n - 2);
  }

  /** Two different calls in turn, not both reads or validations, fail from the eighth call on. */
  lemma TurnsAreStopped(m: Memory, a: Fingerprint, b: Fingerprint, n: nat)
    requires a != b && n >= 8 && !BothReadOrValidate(a, b)
    ensures TurnAnswer(true, m, a, b, n) == Refused(LoopDetected)
  {
    var m' := WarmUp(m, a, b, n);
    AbabIsStopped(m', b, a, n - 3, 0, 0);
  }

  /** From the twelfth call on, exactly the alternations of two reads or of two validations go on. */
  lemma TurnsAreStoppedIff(m: Memory, a: Fingerprint, b: Fingerprint, n: nat)
    requires a != b && n >= 12
    ensures TurnAnswer(true, m, a, b, n) == Refused(LoopDetected)
            <==> !(ReadOrValidate(a) && KindOf(a.tool) == KindOf(b.tool))
  {
    if !BothReadOrValidate(a, b) {
      TurnsAreStopped(m, a, b, n);
    } else {
      var m' := WarmUp(m, a, b, n);
      if KindOf(a.tool) != KindOf(b.tool) {
        ReadValidateIsStopped(m', b, a, n - 3, 0, 0, 0, 0);
      } else {
        SameKindGoesOn(m', b, a, n - 3);
      }
    }
  }

  const SNAPSHOT := Fingerprint(GetGraphSnapshot, 0, None, None)
  const DETAIL := Fingerprint(GetNodeDetail, 1, None, None)

  /** A concrete alternation that is not stopped, from an empty memory. */
  lemma TwoReadsGoOn(n: nat)
    requires n >= 12
    ensures TurnAnswer(true, Memory([], map[]), SNAPSHOT, DETAIL, n) != Refused(LoopDetected)
  {
    assert KindOf(SNAPSHOT.tool) == Read && KindOf(DETAIL.tool) == Read && SNAPSHOT != DETAIL;
    TurnsAreStoppedIff(Memory([], map[]), SNAPSHOT, DETAIL, n);
  }

  // ---------- consecutive checks of one session ----------

  /** Consecutive checks of the calls a and b in turn, none stopped by a budget. Rounds may begin and
      mutations be recorded between them: only history and warnings carry over. */
  ghost predicate InTurn(cfg: Config, gs: seq<Guard>, attempts: seq<Attempt>, a: Fingerprint, b: Fingerprint)
  {
    && |gs| == |attempts|
    && (forall i :: 0 <= i < |gs| ==> Screening(cfg, gs[i], attempts[i]).None?)
    && (forall i :: 0 <= i < |gs| ==> FingerprintOf(attempts[i].call) == if i % 2 == 0 then a else b)
    && (forall i :: 0 < i < |gs| ==> MemoryOf(gs[i]) == MemoryOf(Check(cfg, gs[i - 1], attempts[i - 1]).0))
  }

  function MemoryOf(g: Guard): Memory
  {
    Memory(g.history, g.warnings)
  }

  predicate Stopped(cfg: Config, g: Guard, a: Attempt)
  {
    Check(cfg, g, a).1 == Refused(LoopDetected)
  }

  lemma CheckRemembers(cfg: Config, g: Guard, a: Attempt)
    requires Screening(cfg, g, a).None?
    ensures var (m, answer) := Remember(cfg.softWarnings, MemoryOf(g), FingerprintOf(a.call));
            MemoryOf(Check(cfg, g, a).0) == m && (Stopped(cfg, g, a) <==> answer == Refused(LoopDetected))
  {
  }

  lemma {:induction false} ChecksAreTurns(cfg: Config, gs: seq<Guard>, attempts: seq<Attempt>, a: Fingerprint,
      b: Fingerprint, i: nat)
    requires InTurn(cfg, gs, attempts, a, b) && i < |gs|
    ensures Stopped(cfg, gs[i], attempts[i])
            <==> TurnAnswer(cfg.softWarnings, MemoryOf(gs[0]), a, b, i + 1) == Refused(LoopDetected)
  {
    CheckRemembers(cfg, gs[0], attempts[0]);
    if i > 0 {
      assert MemoryOf(gs[1]) == MemoryOf(Check(cfg, gs[1 - 1], attempts[1 - 1]).0);
      RestInTurn(cfg, gs, attempts, a, b);
      ChecksAreTurns(cfg, gs[1..], attempts[1..], b, a, i - 1);
    }
  }

  lemma RestInTurn(cfg: Config, gs: seq<Guard>, attempts: seq<Attempt>, a: Fingerprint, b: Fingerprint)
    requires InTurn(cfg, gs, attempts, a, b) && |gs| > 0
    ensures InTurn(cfg, gs[1..], attempts[1..], b, a)
  {
    var hs, bs := gs[1..], attempts[1..];
    forall i | 0 <= i < |hs| ensures FingerprintOf(bs[i].call) == if i % 2 == 0 then b else a {
      assert bs[i] == attempts[i + 1];
    }
    forall i | 0 < i < |hs| ensures MemoryOf(hs[i]) == MemoryOf(Check(cfg, hs[i - 1], bs[i - 1]).0) {
      assert hs[i] == gs[i + 1] && hs[i - 1] == gs[i + 1 - 1] && bs[i - 1] == attempts[i + 1 - 1];
    }
  }

  /** Loops are always stopped: whatever came before, from the fourth consecutive check of one call on
      (the third, without soft warnings) every check reports a loop. */
  lemma RepeatedCallIsStopped(cfg: Config, gs: seq<Guard>, attempts: seq<Attempt>, f: Fingerprint, i: nat)
    requires InTurn(cfg, gs, attempts, f, f) && (if cfg.softWarnings then 3 else 2) <= i < |gs|
    ensures Stopped(cfg, gs[i], attempts[i])
  {
    ChecksAreTurns(cfg, gs, attempts, f, f, i);
    if cfg.softWarnings {
      RepeatIsStopped(MemoryOf(gs[0]), f, i + 1, 0, 0);
    } else {
      RepeatIsStoppedHard(MemoryOf(gs[0]), f, i + 1, 0);
    }
  }

  /** Two different calls in turn, not both reads or validations: every check from the eighth on fails. */
  lemma AlternationIsStopped(cfg: Config, gs: seq<Guard>, attempts: seq<Attempt>, a: Fingerprint, b: Fingerprint,
      i: nat)
    requires InTurn(cfg, gs, attempts, a, b) && a != b && cfg.softWarnings && 7 <= i < |gs|
    requires !BothReadOrValidate(a, b)
    ensures Stopped(cfg, gs[i], attempts[i])
  {
    ChecksAreTurns(cfg, gs, attempts, a, b, i);
    TurnsAreStopped(MemoryOf(gs[0]), a, b, i + 1);
  }

  /** Exactly which alternations are stopped by the twelfth check: all but two reads in turn and two
      validations in turn, which may go on for ever. */
  lemma AlternationIsStoppedIff(cfg: Config, gs: seq<Guard>, attempts: seq<Attempt>, a: Fingerprint, b: Fingerprint,
      i: nat)
    requires InTurn(cfg, gs, attempts, a, b) && a != b && cfg.softWarnings && 11 <= i < |gs|
    ensures Stopped(cfg, gs[i], attempts[i]) <==> !(ReadOrValidate(a) && KindOf(a.tool) == KindOf(b.tool))
  {
    ChecksAreTurns(cfg, gs, attempts, a, b, i);
    TurnsAreStoppedIff(MemoryOf(gs[0]), a, b, i + 1);
  }

  /** Two gate types set in turn on one gate are caught at the fourth call even when the calls differ
      otherwise: by a warning at best, at once without soft warnings. */
  lemma GateToggleIsCaught(soft: bool, w: map<Key, nat>, h: seq<Fingerprint>)
    requires |h| >= 4 && IsGateToggle(Back(h, 3), Back(h, 2), Back(h, 1), Back(h, 0))
    ensures Judge(soft, w, h).1 == Refused(LoopDetected) || (soft && Judge(soft, w, h).1 == LoopWarning)
    ensures !soft ==> Judge(soft, w, h).0 == w
  {
    assert KindOf(Back(h, 0).tool) == Mutation;
    assert !EarlyDuplicate(h) && !Streak(h);
    assert Back(h, 0) != Back(h, 1);
  }

  /** With soft warnings the fourth call of such a toggle is refused exactly when the same four calls
      were warned about twice before. */
  lemma GateToggleIsRefusedIff(w: map<Key, nat>, h: seq<Fingerprint>)
    requires |h| >= 4 && IsGateToggle(Back(h, 3), Back(h, 2), Back(h, 1), Back(h, 0))
    ensures Repetition(h).Some?
    ensures Judge(true, w, h).1 == Refused(LoopDetected) <==> Count(w, Repetition(h).value) >= MAX_WARNINGS
  {
    assert KindOf(Back(h, 0).tool) == Mutation;
    assert !EarlyDuplicate(h) && !Streak(h);
  }

  predicate Mentions(k: Key, f: Fingerprint)
  {
    match k
    case OfCall(c) => c == f
    case OfPattern(_, a, b, c, d) => f in {a, b, c, d}
  }

  /** The session has neither made this call nor been warned about it. */
  predicate NewTo(m: Memory, f: Fingerprint)
  {
    f !in m.history && forall k :: k in m.warnings ==> !Mentions(k, f)
  }

  /** With soft warnings a call made for the first time is at most warned about, and leaves other new
      calls new. So toggling a gate with arguments that always differ is never refused. */
  lemma NewCallIsNotRefused(m: Memory, f: Fingerprint)
    requires NewTo(m, f)
    ensures Remember(true, m, f).1 != Refused(LoopDetected)
    ensures forall g :: g != f && NewTo(m, g) ==> NewTo(Remember(true, m, f).0, g)
  {
    var h := Extended(m.history, f);
    assert Back(h, 0) == f && forall i :: 0 < i < |h| ==> Back(h, i) in m.history;
    assert !EarlyDuplicate(h);
    assert Count(m.warnings, OfCall(f)) == 0;
    assert |h| >= 4 ==> Mentions(LastFour(ReadStreak, h), f);
    forall g | g != f && NewTo(m, g) ensures NewTo(Remember(true, m, f).0, g) {
      assert g !in h;
    }
  }

  /** The memory after these calls, made one after the other with soft warnings on. */
  function MemoryAfter(m: Memory, fs: seq<Fingerprint>): Memory
    decreases |fs|
  {
    if fs == [] then m else Remember(true, MemoryAfter(m, fs[..|fs| - 1]), fs[|fs| - 1]).0
  }

  /** Any number of calls that are all different, in a session that has seen none of them, goes on. */
  lemma {:induction false} DifferentCallsGoOn(m: Memory, fs: seq<Fingerprint>, f: Fingerprint)
    requires forall g :: g in fs ==> NewTo(m, g)
    requires forall i, j :: 0 <= i < j < |fs| ==> fs[i] != fs[j]
    requires NewTo(m, f) && f !in fs
    ensures NewTo(MemoryAfter(m, fs), f) && Remember(true, MemoryAfter(m, fs), f).1 != Refused(LoopDetected)
    decreases |fs|
  {
    if fs != [] {
      var init, last := fs[..|fs| - 1], fs[|fs| - 1];
      assert last in fs && (forall g :: g in init ==> g in fs);
      assert last !in init;
      DifferentCallsGoOn(m, init, last);
      DifferentCallsGoOn(m, init, f);
      NewCallIsNotRefused(MemoryAfter(m, init), last);
    }
    NewCallIsNotRefused(MemoryAfter(m, fs), f);
  }

  // ---------- what is let through ----------

  /** Two calls look alike exactly when they are the same tool with the same arguments, and for update_gate also
      the same gate and gate type. */
  lemma LooksAlikeIff(a: Call, b: Call)
    ensures FingerprintOf(a) == FingerprintOf(b) <==>
            a.tool == b.tool && a.args == b.args &&
              (a.tool == UpdateGate ==> a.node == b.node && a.gateType == b.gateType)
  {
  }

  lemma KindsOfTools(tool: Tool)
    ensures KindOf(tool) == Read <==> tool in {GetGraphSnapshot, GetNodeDetail, GetSubtree}
    ensures KindOf(tool) == Validate <==> tool in {CheckGateSemantics, ValidateConstraints}
    ensures KindOf(tool) == Mutation <==>
            tool in {UpdateNode, UpdateGate, AddNode, AddGate, DeleteNode, MoveNode, BatchOperations}
  {
  }

  /** Exactly which checks the budgets stop, and with which error when several apply. */
  lemma ScreenedIff(cfg: Config, g: Guard, a: Attempt)
    ensures var tooMany := cfg.maxToolCalls > 0 && a.made >= cfg.maxToolCalls;
            var tooFast := cfg.rateLimit > 0 && Count(g.used, KindOf(a.call.tool)) >= cfg.rateLimit;
            && (Screening(cfg, g, a).None? <==> a.active && a.named && !tooMany && !tooFast)
            && (Screening(cfg, g, a) == Some(MaxToolCalls) <==> a.active && tooMany)
            && (Screening(cfg, g, a) == Some(SessionInactive) <==> !a.active || (!tooMany && !a.named))
            && (Screening(cfg, g, a) == Some(RateLimited) <==> a.active && !tooMany && a.named && tooFast)
  {
  }

  /** A screened check changes nothing. */
  lemma ScreenedCheck(cfg: Config, g: Guard, a: Attempt)
    requires Screening(cfg, g, a).Some?
    ensures Check(cfg, g, a) == (g, Refused(Screening(cfg, g, a).value))
  {
  }

  /** Any other check is counted for its kind while there is a rate limit, and remembered. Its estimated node
      mutations are added if no repetition is found, unless they pass the limit, which is the answer then. */
  lemma UnscreenedCheck(cfg: Config, g: Guard, a: Attempt)
    requires Screening(cfg, g, a).None?
    ensures var (g', answer) := Check(cfg, g, a);
            var (m, judged) := Remember(cfg.softWarnings, MemoryOf(g), FingerprintOf(a.call));
            var counted, total := a.estimate > 0 && cfg.maxNodes > 0, g.mutations + a.estimate;
            && MemoryOf(g') == m && g'.round == g.round
            && (forall k :: Count(g'.used, k) ==
                            Count(g.used, k) + if cfg.rateLimit > 0 && k == KindOf(a.call.tool) then 1 else 0)
            && (judged != Pass ==> answer == judged && g'.mutations == g.mutations)
            && (judged == Pass && counted && total > cfg.maxNodes ==>
                  answer == Refused(NodeLimitExceeded) && g'.mutations == g.mutations)
            && (judged == Pass && counted && total <= cfg.maxNodes ==> answer == Pass && g'.mutations == total)
            && (judged == Pass && !counted ==> answer == Pass && g'.mutations == g.mutations)
  {
    assert forall k :: Count(Counted(g.used, KindOf(a.call.tool)), k) ==
                       Count(g.used, k) + if k == KindOf(a.call.tool) then 1 else 0;
  }

  /** The history keeps the last sixteen calls, the new one at the end. */
  lemma HistoryKeepsSixteen(h: seq<Fingerprint>, f: Fingerprint)
    ensures var h' := Extended(h, f);
            && |h'| == (if |h| < 16 then |h| + 1 else 16) && Back(h', 0) == f
            && forall i: nat :: i < |h| && i < 15 ==> Back(h', i + 1) == Back(h, i)
  {
  }

  /** A call that repeats no pattern is let through and spends nothing: it differs from the two calls before it
      or the one before, no pair of calls alternates, the last four are not all reads or validations, and no
      gate is toggled. */
  lemma UnsuspectedCallPasses(soft: bool, w: map<Key, nat>, h: seq<Fingerprint>)
    requires |h| > 0 && (|h| >= 2 ==> Back(h, 0) != Back(h, 1))
    requires |h| >= 4 ==> Back(h, 0) != Back(h, 2) || Back(h, 1) != Back(h, 3)
    requires |h| >= 4 ==> exists i :: 0 <= i < 4 && !ReadOrValidate(Back(h, i))
    requires |h| >= 4 ==> !IsGateToggle(Back(h, 3), Back(h, 2), Back(h, 1), Back(h, 0))
    ensures Judge(soft, w, h) == (w, Pass)
  {
    if |h| >= 4 {
      var i :| 0 <= i < 4 && !ReadOrValidate(Back(h, i));
      assert i == 0 || i == 1 || i == 2 || i == 3;
      assert !Streak(h);
    }
  }

  /** A call repeated in a session that knows nothing of it is warned about twice before it is refused. */
  lemma RepeatIsWarnedTwice(m: Memory, f: Fingerprint)
    requires NewTo(m, f)
    ensures TurnAnswer(true, m, f, f, 2) == LoopWarning && TurnAnswer(true, m, f, f, 3) == LoopWarning
  {
    var m1 := Remember(true, m, f).0;
    OncePerNewCall(m, f);
    ReadyNext(m.history, f, f, 0);
    var h2 := Extended(m1.history, f);
    ReadyNext(m1.history, f, f, 1);
    assert EarlyDuplicate(h2) && Back(h2, 0) == f;
    assert Judge(true, m1.warnings, h2) == (Counted(m1.warnings, OfCall(f)), LoopWarning);
    var m2 := Remember(true, m1, f).0;
    assert Count(m2.warnings, OfCall(f)) == 1;
    ReadyNext(m2.history, f, f, 2);
    var h3 := Extended(m2.history, f);
    assert EarlyDuplicate(h3) && Back(h3, 0) == f;
    assert Judge(true, m2.warnings, h3) == (Counted(m2.warnings, OfCall(f)), LoopWarning);
    assert TurnAnswer(true, m, f, f, 2) == TurnAnswer(true, m1, f, f, 1);
    assert TurnAnswer(true, m, f, f, 3) == TurnAnswer(true, m1, f, f, 2);
    assert TurnAnswer(true, m1, f, f, 2) == TurnAnswer(true, m2, f, f, 1);
  }

  /** The first call of its kind spends no token of its own. */
  lemma OncePerNewCall(m: Memory, f: Fingerprint)
    requires NewTo(m, f)
    ensures Count(Remember(true, m, f).0.warnings, OfCall(f)) == 0
  {
    var h := Extended(m.history, f);
    assert forall i :: 0 < i < |h| ==> Back(h, i) in m.history;
    assert !EarlyDuplicate(h);
    assert OfCall(f) !in m.warnings;
    assert Repetition(h) != Some(OfCall(f));
  }

  lemma PatternNotSpent(m: Memory, f: Fingerprint, k: Key)
    requires k.OfPattern? && k !in m.warnings
    requires var h := Extended(m.history, f); |h| >= 4 ==> LastFour(k.shape, h) != k
    ensures k !in Remember(true, m, f).0.warnings
  {
  }

  /** From the j-th last entry back, the history is an older one. */
  predicate OldBeyond(old_: seq<Fingerprint>, h: seq<Fingerprint>, j: nat)
  {
    forall i :: j <= i < |h| ==> Back(h, i) in old_
  }

  lemma OldShifts(old_: seq<Fingerprint>, h: seq<Fingerprint>, f: Fingerprint, j: nat)
    requires OldBeyond(old_, h, j)
    ensures OldBeyond(old_, Extended(h, f), j + 1)
  {
    var h' := Extended(h, f);
    forall i | j + 1 <= i < |h'| ensures Back(h', i) in old_ {
      assert Back(h', i) == Back(h, i - 1);
    }
  }

  /** While the fourth last call is an older one, no token of the two calls' pattern is spent. */
  lemma PatternNotDue(m0: Memory, m: Memory, f: Fingerprint, x: Fingerprint, y: Fingerprint)
    requires x !in m0.history && OldBeyond(m0.history, Extended(m.history, f), 3) && Four(Abab, x, y) !in m.warnings
    ensures Four(Abab, x, y) !in Remember(true, m, f).0.warnings
  {
    PatternNotSpent(m, f, Four(Abab, x, y));
  }

  /** The first three calls of an alternation of new calls spend no token of its patterns. */
  lemma WarmUpSpendsNothing(m: Memory, a: Fingerprint, b: Fingerprint, x: Fingerprint, y: Fingerprint)
    requires NewTo(m, x)
    ensures var m3 := Remember(true, Remember(true, Remember(true, m, a).0, b).0, a).0;
            Four(Abab, x, y) !in m3.warnings
  {
    var m1 := Remember(true, m, a).0;
    var m2 := Remember(true, m1, b).0;
    assert Mentions(Four(Abab, x, y), x);
    assert OldBeyond(m.history, m.history, 0);
    OldShifts(m.history, m.history, a, 0);
    OldShifts(m.history, m1.history, b, 1);
    OldShifts(m.history, m2.history, a, 2);
    PatternNotDue(m, m, a, x, y);
    PatternNotDue(m, m1, b, x, y);
    PatternNotDue(m, m2, a, x, y);
  }

  predicate SpentExactly(w: map<Key, nat>, x: Fingerprint, y: Fingerprint, t: nat, u: nat)
  {
    Count(w, Four(Abab, y, x)) == t && Count(w, Four(Abab, x, y)) == u
  }

  lemma {:induction false} AbabIsWarned(m: Memory, x: Fingerprint, y: Fingerprint, n: nat, t: nat, u: nat)
    requires x != y && !BothReadOrValidate(x, y) && n >= 1
    requires Ready(m.history, x, y, 3) && SpentExactly(m.warnings, x, y, t, u)
    requires if n % 2 == 1 then t + n / 2 <= 1 else u + n / 2 <= 2
    ensures TurnAnswer(true, m, x, y, n) == LoopWarning
    decreases n
  {
    TurnStep(m, x, y);
    var m' := Remember(true, m, x).0;
    assert m'.warnings == Counted(m.warnings, Four(Abab, y, x));
    assert SpentExactly(m'.warnings, y, x, u, t + 1);
    if n > 1 {
      AbabIsWarned(m', y, x, n - 1, u, t + 1);
    }
  }

  /** Two new calls in turn, not both reads or validations, are warned about from the fourth call to the seventh:
      the eighth is the first to be refused. */
  lemma AlternationIsWarnedFirst(m: Memory, a: Fingerprint, b: Fingerprint, n: nat)
    requires a != b && NewTo(m, a) && NewTo(m, b) && !BothReadOrValidate(a, b) && 4 <= n <= 7
    ensures TurnAnswer(true, m, a, b, n) == LoopWarning
  {
    WarmUpSpendsNothing(m, a, b, a, b);
    WarmUpSpendsNothing(m, a, b, b, a);
    var m1 := Remember(true, m, a).0;
    var m2 := Remember(true, m1, b).0;
    var m3 := Remember(true, m2, a).0;
    ReadyNext(m.history, a, b, 0);
    ReadyNext(m1.history, b, a, 1);
    ReadyNext(m2.history, a, b, 2);
    assert TurnAnswer(true, m, a, b, n) == TurnAnswer(true, m1, b, a, n - 1);
    assert TurnAnswer(true, m1, b, a, n - 1) == TurnAnswer(true, m2, a, b, n - 2);
    AbabIsWarned(m3, b, a, n - 3, 0, 0);
  }

  // ---------- budgets over whole runs ----------

  datatype GuardEvent = NewRound(round: int) | Attempted(attempt: Attempt) | Recorded(changed: int)

  function GuardStep(cfg: Config, g: Guard, e: GuardEvent): Guard
  {
    match e
    case NewRound(round) => if g.round == round then g else g.(round := round, used := map[])
    case Attempted(a) => Check(cfg, g, a).0
    case Recorded(changed) => AddMutations(cfg, g, changed).0
  }

  function GuardRun(cfg: Config, g: Guard, es: seq<GuardEvent>): Guard
    decreases |es|
  {
    if es == [] then g else GuardStep(cfg, GuardRun(cfg, g, es[..|es| - 1]), es[|es| - 1])
  }

  /** Bounded history, calls per kind within the rate limit, mutations within the session's limit. */
  ghost predicate WithinBudgets(cfg: Config, g: Guard)
  {
    && |g.history| <= HISTORY_WINDOW
    && (cfg.rateLimit > 0 ==> forall k :: Count(g.used, k) <= cfg.rateLimit)
    && (cfg.maxNodes > 0 ==> g.mutations <= cfg.maxNodes)
  }

  lemma {:induction false} RunsStayWithinBudgets(cfg: Config, g: Guard, es: seq<GuardEvent>)
    requires WithinBudgets(cfg, g)
    ensures WithinBudgets(cfg, GuardRun(cfg, g, es))
    decreases |es|
  {
    if es != [] {
      RunsStayWithinBudgets(cfg, g, es[..|es| - 1]);
      StepStaysWithinBudgets(cfg, GuardRun(cfg, g, es[..|es| - 1]), es[|es| - 1]);
    }
  }

  lemma StepStaysWithinBudgets(cfg: Config, g: Guard, e: GuardEvent)
    requires WithinBudgets(cfg, g)
    ensures WithinBudgets(cfg, GuardStep(cfg, g, e))
  {
    if e.Attempted? && Screening(cfg, g, e.attempt).None? {
      var kind := KindOf(e.attempt.call.tool);
      assert |Extended(g.history, FingerprintOf(e.attempt.call))| <= HISTORY_WINDOW;
      forall k | cfg.rateLimit > 0 ensures Count(Counted(g.used, kind), k) <= cfg.rateLimit {
        assert Count(g.used, k) <= cfg.rateLimit;
      }
    }
  }

  // ---------- the controller ----------

  class SafetyController {
    const cfg: Config
    var currentRound: map<nat, int>
    var roundCalls: map<nat, map<Kind, nat>>
    var historyCalls: map<nat, seq<Fingerprint>>
    var nodeMutations: map<nat, int>
    var loopWarnings: map<nat, map<Key, nat>>

    constructor (cfg: Config)
      ensures this.cfg == cfg && forall session :: View(session) == Guard(0, map[], [], map[], 0)
    {
      this.cfg := cfg;
      currentRound, roundCalls, historyCalls, nodeMutations, loopWarnings := map[], map[], map[], map[], map[];
    }

    function View(session: nat): Guard
      reads this
    {
      Guard(if session in currentRound then currentRound[session] else 0,
            if session in roundCalls then roundCalls[session] else map[],
            if session in historyCalls then historyCalls[session] else [],
            if session in loopWarnings then loopWarnings[session] else map[],
            if session in nodeMutations then nodeMutations[session] else 0)
    }

    method BeginRound(session: nat, round: int)
      modifies this`currentRound, this`roundCalls
      ensures View(session) == if old(View(session)).round == round then old(View(session))
              else old(View(session)).(round := round, used := map[])
      ensures forall other :: other != session ==> View(other) == old(View(other))
    {
      if View(session).round == round {
        return;
      }
      currentRound := currentRound[session := round];
      roundCalls := roundCalls[session := map[]];
    }

    method ConsumeLoopWarningToken(session: nat, key: Key) returns (left: bool)
      modifies this`loopWarnings
      ensures (View(session).warnings, left) == Spend(old(View(session)).warnings, true, key)
      ensures View(session) == old(View(session)).(warnings := View(session).warnings)
      ensures forall other :: other != session ==> View(other) == old(View(other))
    {
      var counts := View(session).warnings;
      loopWarnings := loopWarnings[session := Counted(counts, key)];
      left := Count(counts, key) < MAX_WARNINGS;
    }

    /** A budget is counted only for a call that is let through. */
    method Screen(session: nat, a: Attempt) returns (refused: Option<Refusal>)
      modifies this`roundCalls
      ensures refused == Screening(cfg, old(View(session)), a)
      ensures View(session) == if refused.Some? || cfg.rateLimit <= 0 then old(View(session))
                               else old(View(session)).(used := Counted(old(View(session)).used, KindOf(a.call.tool)))
      ensures forall other :: other != session ==> View(other) == old(View(other))
    {
      if !a.active {
        return Some(SessionInactive);
      }
      if cfg.maxToolCalls > 0 && a.made >= cfg.maxToolCalls {
        return Some(MaxToolCalls);
      }
      if !a.named {
        return Some(SessionInactive);
      }
      if cfg.rateLimit > 0 {
        var used := View(session).used;
        if Count(used, KindOf(a.call.tool)) >= cfg.rateLimit {
          return Some(RateLimited);
        }
        roundCalls := roundCalls[session := Counted(used, KindOf(a.call.tool))];
      }
      refused := None;
    }

    method AppendHistory(session: nat, f: Fingerprint) returns (history: seq<Fingerprint>)
      modifies this`historyCalls
      ensures history == Extended(old(View(session)).history, f)
      ensures View(session) == old(View(session)).(history := history)
      ensures forall other :: other != session ==> View(other) == old(View(other))
    {
      history := View(session).history + [f];
      if |history| > HISTORY_WINDOW {
        history := history[|history| - HISTORY_WINDOW..];
      }
      historyCalls := historyCalls[session := history];
    }

    /** The soft warnings, then the hard patterns with a token each. */
    method JudgeHistory(session: nat, history: seq<Fingerprint>) returns (answer: Answer)
      requires |history| > 0
      modifies this`loopWarnings
      ensures (View(session).warnings, answer) == Judge(cfg.softWarnings, old(View(session)).warnings, history)
      ensures View(session) == old(View(session)).(warnings := View(session).warnings)
      ensures forall other :: other != session ==> View(other) == old(View(other))
    {
      if cfg.softWarnings {
        if EarlyDuplicate(history) {
          var left := ConsumeLoopWarningToken(session, OfCall(Back(history, 0)));
          if left {
            return LoopWarning;
          }
        }
        if Streak(history) {
          var left := ConsumeLoopWarningToken(session, LastFour(ReadStreak, history));
          if left {
            return StreakWarning;
          }
        }
      }
      var found := Repetition(history);
      if found.None? {
        return Pass;
      }
      if cfg.softWarnings {
        var left := ConsumeLoopWarningToken(session, found.value);
        if left {
          return LoopWarning;
        }
      }
      answer := Refused(LoopDetected);
    }

    method RecordMutation(session: nat, changed: int) returns (answer: Answer)
      modifies this`nodeMutations
      ensures (View(session), answer) == AddMutations(cfg, old(View(session)), changed)
      ensures var counted, total := changed > 0 && cfg.maxNodes > 0, old(View(session)).mutations + changed;
              && (answer == Pass <==> !counted || total <= cfg.maxNodes)
              && (answer != Pass ==> answer == Refused(NodeLimitExceeded))
              && View(session) == old(View(session)).(mutations := if counted && answer == Pass then total
                                                                   else old(View(session)).mutations)
      ensures forall other :: other != session ==> View(other) == old(View(other))
    {
      if changed <= 0 || cfg.maxNodes <= 0 {
        return Pass;
      }
      var next := View(session).mutations + changed;
      if next > cfg.maxNodes {
        return Refused(NodeLimitExceeded);
      }
      nodeMutations := nodeMutations[session := next];
      answer := Pass;
    }

    method CheckToolCallWithWarning(session: nat, a: Attempt) returns (answer: Answer)
      modifies this
      ensures (View(session), answer) == Check(cfg, old(View(session)), a)
      ensures forall other :: other != session ==> View(other) == old(View(other))
    {
      var refused := Screen(session, a);
      if refused.Some? {
        return Refused(refused.value);
      }
      var history := AppendHistory(session, FingerprintOf(a.call));
      answer := JudgeHistory(session, history);
      if answer == Pass {
        answer := RecordMutation(session, a.estimate);
      }
    }

    method ClearSession(session: nat)
      modifies this
      ensures View(session) == Guard(0, map[], [], map[], 0)
      ensures forall other :: other != session ==> View(other) == old(View(other))
    {
      currentRound := currentRound - {session};
      roundCalls := roundCalls - {session};
      historyCalls := historyCalls - {session};
      nodeMutations := nodeMutations - {session};
      loopWarnings := loopWarnings - {session};
    }
  }
}
