/** What a history without lost updates says about the documents in it. */
module LogHistory {
  import opened Text
  import opened ThreadTypes
  import opened SharedLog
  import opened SharedLogInvariant

  // ---- Serialisation ---------------------------------------------------------------------

  function Last<T>(s: seq<T>): T
    requires s != []
  {
    s[|s| - 1]
  }

  function Init<T>(s: seq<T>): seq<T>
    requires s != []
  {
    s[..|s| - 1]
  }

  /** The operations that wrote since the object was last absent, in the order of their
      conditional writes. */
  function Era(past: seq<Version>): seq<Op> {
    if past == [] || Last(past).Gone? then [] else Era(Init(past)) + [Last(past).op]
  }

  lemma EraSnoc(past: seq<Version>)
    requires past != [] && Last(past).Version?
    ensures Era(past) == Era(Init(past)) + [Last(past).op]
  {
  }

  /** The document after one operation. */
  function After(op: Op, base: Option<Doc>): Option<Doc> {
    match Decide(op, base)
    case Write(next, _) => Some(next)
    case _ => base
  }

  /** Those operations run one after another from no document. */
  function Replay(ops: seq<Op>): Option<Doc> {
    if ops == [] then None else After(Last(ops), Replay(Init(ops)))
  }

  lemma ReplaySnoc(ops: seq<Op>, op: Op)
    ensures Replay(ops + [op]) == After(op, Replay(ops))
  {
    hide After;
    assert Init(ops + [op]) == ops;
  }

  lemma LosslessPrefix(past: seq<Version>)
    requires past != [] && Lossless(past)
    ensures Lossless(Init(past))
    ensures |past| >= 2 && Last(past).Version? ==> LosslessAt(Last(Init(past)), Last(past))
  {
    hide LosslessAt;
    forall i | 1 <= i < |Init(past)| && Init(past)[i].Version? ensures LosslessAt(Init(past)[i - 1], Init(past)[i]) {
      assert LosslessAt(past[i - 1], past[i]);
    }
    if |past| >= 2 && Last(past).Version? { assert LosslessAt(past[|past| - 2], past[|past| - 1]); }
  }

  /** The stored document is the serial composition of the successful operations. */
  lemma {:induction false} StoreIsReplay(past: seq<Version>)
    requires past != [] && past[0].Gone? && Lossless(past)
    ensures DocOf(Last(past)) == Replay(Era(past))
  {
    if Last(past).Version? {
      var before, op := Init(past), Last(past).op;
      LosslessPrefix(past);
      assert before[0] == past[0];
      EraSnoc(past);
      hide Era, Replay, Decide, Lossless;
      StoreIsReplay(before);
      ReplaySnoc(Era(before), op);
      assert After(op, DocOf(Last(before))) == Some(Last(past).doc);
    }
  }

  /** Control state: the closures of the successful `mutate` calls, composed. */
  function Compose(ops: seq<Op>): Option<string>
    requires forall i :: 0 <= i < |ops| ==> ops[i].Mutate?
  {
    if ops == [] then None else Last(ops).f(Compose(Init(ops)))
  }

  lemma ComposeSnoc(ops: seq<Op>, op: Op)
    requires op.Mutate? && forall i :: 0 <= i < |ops| ==> ops[i].Mutate?
    ensures Compose(ops + [op]) == op.f(Compose(ops))
  {
    assert Init(ops + [op]) == ops;
  }

  predicate MutatesOf(ops: seq<Op>, suite: string) {
    forall i :: 0 <= i < |ops| ==> ops[i].Mutate? && Trim(ops[i].suite) == Trim(suite)
  }

  /** One mutation of a document whose payload for the suite is `current`. */
  lemma MutateWrites(op: Op, base: Option<Doc>, suite: string, current: Option<string>)
    requires op.Mutate? && Trim(op.suite) == Trim(suite) && Decide(op, base).Write?
    requires if base.None? then current.None? else current.Some? && Decode(base.value, suite) == Readable(current.value)
    ensures op.f(current).Some?
    ensures Decode(Decide(op, base).next, suite) == Readable(op.f(current).value)
  {
    if base.Some? { assert Decode(base.value, op.suite) == Decode(base.value, suite); }
    assert Decide(op, base) == PlanMutate(op.suite, op.f, current);
    DecodeEncode(op.suite, suite, op.f(current).value);
  }

  /** Where only `mutate` calls of one suite have written, the payload that suite reads is the
      composition of their closures in conditional-write order. */
  lemma {:induction false} MutationsCompose(past: seq<Version>, suite: string)
    requires past != [] && past[0].Gone? && Lossless(past)
    requires Last(past).Version? && MutatesOf(Era(past), suite)
    ensures Compose(Era(past)).Some?
    ensures Decode(Last(past).doc, suite) == Readable(Compose(Era(past)).value)
  {
    var before, op := Init(past), Last(past).op;
    LosslessPrefix(past);
    assert before[0] == past[0];
    EraSnoc(past);
    var ops := Era(before);
    assert MutatesOf(ops, suite) && op.Mutate? && Trim(op.suite) == Trim(suite) by {
      assert forall i :: 0 <= i < |ops| ==> Era(past)[i] == ops[i];
      assert Era(past)[|ops|] == op;
    }
    ComposeSnoc(ops, op);
    assert Last(before).Gone? ==> ops == [];
    hide Era, Lossless, Trim, Decode, Decide;
    if Last(before).Version? { MutationsCompose(before, suite); }
    MutateWrites(op, DocOf(Last(before)), suite, if Last(before).Version? then Compose(ops) else None);
  }

  /** The payload after mutations and saves of any suites: each starts from the payload that its
      own suite left last, or from none if another suite has written since. */
  function PayloadAfter(ops: seq<Op>): Option<string>
    requires forall i :: 0 <= i < |ops| ==> ops[i].Mutate? || ops[i].Save?
  {
    if ops == [] then None
    else
      var op, before := Last(ops), Init(ops);
      var current := if before != [] && Trim(Last(before).suite) == Trim(op.suite) then PayloadAfter(before) else None;
      if op.Save? then Some(op.payload) else op.f(current)
  }

  lemma PayloadAfterSnoc(ops: seq<Op>, op: Op)
    requires op.Mutate? || op.Save?
    requires forall i :: 0 <= i < |ops| ==> ops[i].Mutate? || ops[i].Save?
    ensures PayloadAfter(ops + [op]) ==
            if op.Save? then Some(op.payload)
            else op.f(if ops != [] && Trim(Last(ops).suite) == Trim(op.suite) then PayloadAfter(ops) else None)
  {
    assert Init(ops + [op]) == ops;
  }

  predicate ControlWrites(ops: seq<Op>) {
    forall i :: 0 <= i < |ops| ==> ops[i].Mutate? || ops[i].Save?
  }

  /** One step of that: the writer's suite reads the new payload and every other suite nothing. */
  lemma ControlWriteReads(op: Op, base: Option<Doc>, suite: string, payload: Option<string>, reader: string)
    requires (op.Mutate? || op.Save?) && Decide(op, base).Write?
    requires base.Some? ==> payload.Some? && base.value == Encode(suite, payload.value)
    requires base.None? ==> payload.None?
    ensures var current := if base.Some? && Trim(suite) == Trim(op.suite) then payload else None;
            var next := if op.Save? then Some(op.payload) else op.f(current);
            next.Some? && Decide(op, base).next == Encode(op.suite, next.value)
  {
    if base.Some? { DecodeEncode(suite, op.suite, payload.value); }
    if op.Mutate? { MutationIsPromised(op, base); }
  }

  /** Where control-state calls of any suites have written, the stored state is the last writer's
      and holds the composition of its mutations since another suite wrote. */
  lemma {:induction false} ControlStateIsComposition(past: seq<Version>)
    requires past != [] && past[0].Gone? && Lossless(past)
    requires Last(past).Version? && ControlWrites(Era(past))
    ensures Era(past) != [] && Last(Era(past)) == Last(past).op && PayloadAfter(Era(past)).Some?
    ensures Last(past).doc == Encode(Last(past).op.suite, PayloadAfter(Era(past)).value)
  {
    var before, op := Init(past), Last(past).op;
    LosslessPrefix(past);
    assert before[0] == past[0];
    EraSnoc(past);
    var ops := Era(before);
    assert ControlWrites(ops) && (op.Mutate? || op.Save?) by {
      assert forall i :: 0 <= i < |ops| ==> Era(past)[i] == ops[i];
      assert Era(past)[|ops|] == op;
    }
    PayloadAfterSnoc(ops, op);
    assert Last(before).Gone? ==> ops == [];
    hide Era, Lossless, Trim, Decode, Decide, PayloadAfter;
    if Last(before).Version? {
      ControlStateIsComposition(before);
      ControlWriteReads(op, DocOf(Last(before)), Last(before).op.suite, PayloadAfter(ops), op.suite);
    } else {
      ControlWriteReads(op, None, "", None, op.suite);
    }
  }

  // ---- Thread logs -----------------------------------------------------------------------

  /** The result a log must carry: that of its last `Complete` step. */
  function LastResult(steps: seq<ThreadStep>): Option<ThreadResult> {
    if steps == [] then None
    else
      var x := Last(steps);
      if x.Complete? then Some(ThreadResult(x.kind, x.payload, x.display)) else LastResult(Init(steps))
  }

  predicate LogOk(d: Doc) {
    GoodLog(d) && d.log.result == LastResult(d.log.steps)
  }

  /** Everything an operation on a log may do to it. */
  ghost predicate Follows(a: ThreadLog, b: ThreadLog) {
    && a.steps <= b.steps && |b.steps| <= |a.steps| + 1
    && (a.titleLocked ==> b.titleLocked)
    && (a.titleLocked && a.title.Some? && a.title.value != "" ==> b.title == a.title)
  }

  lemma PlanFollows(op: Op, log: ThreadLog)
    requires PlanLog(op, log).Write? && log.schemaVersion == THREAD_SCHEMA_VERSION
    requires log.result == LastResult(log.steps)
    ensures var next := PlanLog(op, log).next;
            && LogOk(next) && Follows(log, next.log)
            && (op.Append? ==> next.log.steps != [] && Last(next.log.steps) == op.step)
            && (op.Preflight? ==> FirstPhase(log.steps, 0).None?)
  {
    var next := PlanLog(op, log).next.log;
    match op
    case Append(x) =>
      assert Init(log.steps + [x]) == log.steps && Last(log.steps + [x]) == x;
    case Preflight(agent, suiteId, phase, ts) =>
      var x := PreflightStep(agent, suiteId, phase, ts);
      assert Init(log.steps + [x]) == log.steps && Last(log.steps + [x]) == x;
    case SetTitle(_) =>
    case LockTitle(_) =>
  }

  lemma {:induction false} WriteFollows(op: Op, base: Option<Doc>)
    requires OpOf(ThreadKind, op) && Decide(op, base).Write?
    requires base.Some? ==> LogOk(base.value)
    ensures var next := Decide(op, base).next;
            && LogOk(next)
            && Follows(if base.Some? then base.value.log else DEFAULT_LOG, next.log)
            && (op.Append? ==> next.log.steps != [] && Last(next.log.steps) == op.step)
            && (op.Preflight? ==> FirstPhase((if base.Some? then base.value.log else DEFAULT_LOG).steps, 0).None?)
  {
    PlanFollows(op, if base.Some? then base.value.log else DEFAULT_LOG);
  }

  ghost predicate ThreadHistory(past: seq<Version>) {
    && past != [] && past[0].Gone? && Lossless(past)
    && forall i :: 0 <= i < |past| && past[i].Version? ==> OpOf(ThreadKind, past[i].op)
  }

  /** In every version the result mirrors the last `Complete` step. */
  lemma {:induction false} ResultMirrorsLastComplete(past: seq<Version>, i: nat)
    requires ThreadHistory(past) && i < |past| && past[i].Version?
    ensures LogOk(past[i].doc)
  {
    assert LosslessAt(past[i - 1], past[i]);
    if past[i - 1].Version? { ResultMirrorsLastComplete(past, i - 1); }
    WriteFollows(past[i].op, DocOf(past[i - 1]));
  }

  ghost predicate Unbroken(past: seq<Version>, i: nat, j: nat) {
    i <= j < |past| && forall m :: i <= m <= j ==> past[m].Version?
  }

  lemma FollowsTrans(a: ThreadLog, b: ThreadLog, c: ThreadLog)
    requires a.steps <= b.steps && Follows(b, c)
    ensures a.steps <= c.steps
  {
  }

  /** Between deletions the step list only grows, a lock is never released, and a locked
      title that is not empty never changes. */
  lemma {:induction false} LogOnlyGrows(past: seq<Version>, i: nat, j: nat)
    requires ThreadHistory(past) && Unbroken(past, i, j)
    ensures LogOk(past[i].doc) && LogOk(past[j].doc)
    ensures past[i].doc.log.steps <= past[j].doc.log.steps
    ensures past[i].doc.log.titleLocked ==> past[j].doc.log.titleLocked
    ensures var l := past[i].doc.log;
            l.titleLocked && l.title.Some? && l.title.value != "" ==> past[j].doc.log.title == l.title
    decreases j
  {
    ResultMirrorsLastComplete(past, i);
    ResultMirrorsLastComplete(past, j);
    if i < j {
      LogOnlyGrows(past, i, j - 1);
      assert LosslessAt(past[j - 1], past[j]);
      WriteFollows(past[j].op, DocOf(past[j - 1]));
      FollowsTrans(past[i].doc.log, past[j - 1].doc.log, past[j].doc.log);
    }
  }

  /** An acknowledged step stays: it is at its position in every later version. */
  lemma AcknowledgedStepStays(past: seq<Version>, v: nat, j: nat)
    requires ThreadHistory(past) && Unbroken(past, v, j) && past[v].op.Append?
    ensures LogOk(past[v].doc) && LogOk(past[j].doc)
    ensures var n := |past[v].doc.log.steps|;
            1 <= n <= |past[j].doc.log.steps| && past[j].doc.log.steps[n - 1] == past[v].op.step
  {
    LogOnlyGrows(past, v, j);
    assert LosslessAt(past[v - 1], past[v]);
    if past[v - 1].Version? { ResultMirrorsLastComplete(past, v - 1); }
    WriteFollows(past[v].op, DocOf(past[v - 1]));
  }

  lemma {:induction false} FirstPhasePrefix(a: seq<ThreadStep>, b: seq<ThreadStep>, from: nat)
    requires a <= b && from <= |a| && FirstPhase(a, from).Some?
    ensures FirstPhase(b, from) == FirstPhase(a, from)
    decreases |a| - from
  {
    assert a[from] == b[from];
    if !a[from].Phase? { FirstPhasePrefix(a, b, from + 1); }
  }

  /** A preflight write happens only where there is no phase step, so the first phase step
      never changes until the log is deleted. */
  lemma FirstPhaseIsStable(past: seq<Version>, i: nat, j: nat)
    requires ThreadHistory(past) && Unbroken(past, i, j)
    requires past[i].doc.LogDoc? && FirstPhase(past[i].doc.log.steps, 0).Some?
    ensures past[j].doc.LogDoc?
    ensures FirstPhase(past[j].doc.log.steps, 0) == FirstPhase(past[i].doc.log.steps, 0)
    ensures forall m :: i < m <= j ==> !past[m].op.Preflight?
    ensures var p := FirstPhase(past[i].doc.log.steps, 0).value;
            past[j].doc.log.steps[p] == past[i].doc.log.steps[p]
  {
    LogOnlyGrows(past, i, j);
    FirstPhasePrefix(past[i].doc.log.steps, past[j].doc.log.steps, 0);
    forall m | i < m <= j ensures !past[m].op.Preflight? {
      LogOnlyGrows(past, i, m - 1);
      FirstPhasePrefix(past[i].doc.log.steps, past[m - 1].doc.log.steps, 0);
      assert LosslessAt(past[m - 1], past[m]);
      WriteFollows(past[m].op, DocOf(past[m - 1]));
    }
  }

  // ---- The fields of the present log -------------------------------------------------------

  /** The steps that the writes of a history have added. */
  function WrittenSteps(ops: seq<Op>): seq<ThreadStep> {
    if ops == [] then []
    else
      WrittenSteps(Init(ops)) +
      match Last(ops)
      case Append(x) => [x]
      case Preflight(agent, suiteId, phase, ts) => [Phase(phase, None, Some("thread_started"), suiteId, ts, agent)]
      case _ => []
  }

  /** The title of the last write that set or locked one. */
  function LastTitle(ops: seq<Op>): Option<string> {
    if ops == [] then None
    else if Last(ops).SetTitle? || Last(ops).LockTitle? then Some(Last(ops).title)
    else LastTitle(Init(ops))
  }

  predicate EverLocked(ops: seq<Op>) {
    exists i :: 0 <= i < |ops| && ops[i].LockTitle?
  }

  lemma OpsSnoc(ops: seq<Op>, op: Op)
    ensures WrittenSteps(ops + [op]) == WrittenSteps(ops) +
              match op
              case Append(x) => [x]
              case Preflight(agent, suiteId, phase, ts) => [Phase(phase, None, Some("thread_started"), suiteId, ts, agent)]
              case _ => []
    ensures LastTitle(ops + [op]) == if op.SetTitle? || op.LockTitle? then Some(op.title) else LastTitle(ops)
    ensures EverLocked(ops + [op]) <==> EverLocked(ops) || op.LockTitle?
  {
    var all := ops + [op];
    assert Init(all) == ops && Last(all) == op;
    if EverLocked(ops) {
      var i :| 0 <= i < |ops| && ops[i].LockTitle?;
      assert all[i].LockTitle?;
    }
    if op.LockTitle? { assert all[|ops|].LockTitle?; }
  }

  /** Every version is the promised effect of its operation on the version before it. */
  lemma VersionHasEffect(past: seq<Version>, i: nat)
    requires ThreadHistory(past) && 1 <= i < |past| && past[i].Version?
    requires past[i - 1].Version? ==> GoodLog(past[i - 1].doc)
    ensures WritesLogs(past[i].op) && GoodLog(past[i].doc)
    ensures Effect(past[i].op, BaseLog(DocOf(past[i - 1])), past[i].doc.log)
  {
    assert LosslessAt(past[i - 1], past[i]);
    DecisionIsPromised(past[i].op, DocOf(past[i - 1]));
  }

  /** Each field of the present log by itself: the steps are those that were written, in order,
      the title is that of the last title write, and it is locked if a lock was written. */
  lemma {:induction false} PresentFields(past: seq<Version>)
    requires ThreadHistory(past) && Last(past).Version?
    ensures GoodLog(Last(past).doc)
    ensures var log, ops := Last(past).doc.log, Era(past);
            && log.steps == WrittenSteps(ops) && log.title == LastTitle(ops) && (log.titleLocked <==> EverLocked(ops))
            && log.result == LastResult(WrittenSteps(ops))
  {
    var before, op := Init(past), Last(past).op;
    LosslessPrefix(past);
    assert forall i :: 0 <= i < |before| ==> before[i] == past[i];
    EraSnoc(past);
    OpsSnoc(Era(before), op);
    ResultMirrorsLastComplete(past, |past| - 1);
    if Last(before).Version? {
      PresentFields(before);
    } else {
      assert Era(before) == [] && WrittenSteps([]) == [] && LastTitle([]) == None && !EverLocked([]);
    }
    VersionHasEffect(past, |past| - 1);
    hide Era, WrittenSteps, LastTitle, EverLocked, LastResult, Lossless;
  }

  // ---- Answers of preflight ---------------------------------------------------------------

  ghost predicate AnswerAt(past: seq<Version>, w: nat, a: (nat, string)) {
    && w < |past| && past[w].Version? && GoodLog(past[w].doc)
    && FirstPhase(past[w].doc.log.steps, 0) == Some(a.0)
    && past[w].doc.log.steps[a.0].Phase? && past[w].doc.log.steps[a.0].phase == a.1
  }

  ghost predicate Answered(k: Task, a: (nat, string)) {
    k.op.Preflight? && k.pc.Done?
    && ((k.pc.reply.Acked? && k.pc.reply.at == Some(a)) || (k.pc.reply.Unchanged? && k.pc.reply.at == Some(a)))
  }

  /** What a preflight call returns is the first phase of a log the store held. */
  lemma AnswerIsFirstPhase(s: State, t: TaskId, a: (nat, string)) returns (w: nat)
    requires Inv(s) && t in s.tasks && Answered(s.tasks[t], a)
    ensures AnswerAt(s.past, w, a)
  {
    var k := s.tasks[t];
    assert PcOk(s.past, t, k);
    if k.pc.reply.Acked? {
      w := k.pc.reply.version;
    } else {
      var d :| HeldSince(s.past, k.start, d) && Decide(k.op, Some(d)) == Settled(Some(a));
      w :| k.start <= w && DocAt(s.past, w, d);
    }
  }

  /** All preflight calls on a log that is never deleted agree, whichever hosts made them. */
  lemma PreflightAgrees(s: State, t: TaskId, u: TaskId, a: (nat, string), b: (nat, string))
    requires Inv(s) && ThreadHistory(s.past)
    requires forall i :: 1 <= i < |s.past| ==> s.past[i].Version?
    requires t in s.tasks && Answered(s.tasks[t], a) && u in s.tasks && Answered(s.tasks[u], b)
    ensures a == b
  {
    var w := AnswerIsFirstPhase(s, t, a);
    var x := AnswerIsFirstPhase(s, u, b);
    if w <= x { FirstPhaseIsStable(s.past, w, x); } else { FirstPhaseIsStable(s.past, x, w); }
  }
}
