/** The history results as statements about runs of the shared log: any number of hosts, calls
    and interleavings, with both caches in place. */
module RunHistory {
  import opened Text
  import opened ThreadTypes
  import opened SharedLog
  import opened SharedLogInvariant
  import opened SharedLogTheorems
  import opened LogHistory

  /** A run of thread-log calls that leaves no untagged body. */
  ghost predicate ThreadRun(evs: seq<Event>) {
    TaggedRun(INIT, evs) && Calls(evs, OpsOf(ThreadKind))
  }

  /** Runs of careful callers are such runs, and nothing is ever deleted in them. */
  lemma CarefulThreadRun(evs: seq<Event>)
    requires Careful(INIT, evs) && Calls(evs, OpsOf(ThreadKind))
    ensures ThreadRun(evs)
    ensures forall i :: 1 <= i < |Exec(INIT, evs).past| ==> Exec(INIT, evs).past[i].Version?
  {
    CarefulRunOk(INIT, evs, 1);
  }

  lemma RunHasHistory(evs: seq<Event>)
    requires ThreadRun(evs)
    ensures Inv(Exec(INIT, evs)) && ThreadHistory(Exec(INIT, evs).past)
  {
    RunOk(INIT, evs);
    HistoryGrows(INIT, evs);
    OpsOfRun(INIT, evs, OpsOf(ThreadKind));
    hide Exec;
  }

  // ---- Thread logs -----------------------------------------------------------------------

  /** The present log is the serial composition of the writes since it was last absent, and its
      result is that of its last `Complete` step. */
  lemma PresentLogIsReplay(evs: seq<Event>)
    requires ThreadRun(evs)
    ensures var s := Exec(INIT, evs);
            && DocOf(Now(s)) == Replay(Era(s.past))
            && (Now(s).Version? ==> LogOk(Now(s).doc))
  {
    var s := Exec(INIT, evs);
    RunHasHistory(evs);
    hide Exec, Inv;
    StoreIsReplay(s.past);
    if Now(s).Version? { ResultMirrorsLastComplete(s.past, |s.past| - 1); }
  }

  /** Every field of the present log, by the writes since the log was last absent: the steps they
      added in order, the title of the last title write, whether one of them locked it, and the
      result of the last `Complete` step. */
  lemma PresentLogFields(evs: seq<Event>)
    requires ThreadRun(evs) && Now(Exec(INIT, evs)).Version?
    ensures var s := Exec(INIT, evs); var ops := Era(s.past);
            && GoodLog(Now(s).doc)
            && Now(s).doc.log.steps == WrittenSteps(ops)
            && Now(s).doc.log.title == LastTitle(ops)
            && (Now(s).doc.log.titleLocked <==> EverLocked(ops))
            && Now(s).doc.log.result == LastResult(WrittenSteps(ops))
  {
    RunHasHistory(evs);
    hide Exec, Inv;
    PresentFields(Exec(INIT, evs).past);
  }

  /** Every version of a run is the promised effect of its operation on the one before. */
  lemma VersionsHaveEffects(evs: seq<Event>, i: nat)
    requires ThreadRun(evs)
    requires var past := Exec(INIT, evs).past; 1 <= i < |past| && past[i].Version?
    ensures var past := Exec(INIT, evs).past;
            && WritesLogs(past[i].op) && GoodLog(past[i].doc)
            && Effect(past[i].op, BaseLog(DocOf(past[i - 1])), past[i].doc.log)
  {
    var past := Exec(INIT, evs).past;
    RunHasHistory(evs);
    hide Exec, Inv;
    if past[i - 1].Version? { ResultMirrorsLastComplete(past, i - 1); }
    VersionHasEffect(past, i);
  }

  /** A call that succeeds without a write found nothing to do in a log that the store held
      during the call. */
  lemma UnchangedFoundNothing(evs: seq<Event>, t: TaskId) returns (w: nat)
    requires ThreadRun(evs)
    requires var s := Exec(INIT, evs); t in s.tasks && s.tasks[t].pc.Done? && s.tasks[t].pc.reply.Unchanged?
    ensures var s := Exec(INIT, evs);
            && s.tasks[t].start <= w < |s.past| && s.past[w].Version? && GoodLog(s.past[w].doc)
            && NothingToDo(s.tasks[t].op, s.past[w].doc.log)
  {
    var s := Exec(INIT, evs);
    RunHasHistory(evs);
    OpsOfRun(INIT, evs, OpsOf(ThreadKind));
    hide Exec;
    var k := s.tasks[t];
    assert PcOk(s.past, t, k);
    var d :| HeldSince(s.past, k.start, d) && Decide(k.op, Some(d)) == Settled(k.pc.reply.at);
    w :| k.start <= w && DocAt(s.past, w, d);
    assert WritesLogs(k.op);
    DecisionIsPromised(k.op, Some(d));
  }

  /** The step of an acknowledged append is at one and the same position in every version from
      the acknowledged one on, until a deletion. */
  lemma AcknowledgedAppendStays(evs: seq<Event>, t: TaskId, j: nat)
    requires ThreadRun(evs)
    requires var s := Exec(INIT, evs);
             t in s.tasks && s.tasks[t].op.Append? && s.tasks[t].pc.Done? && s.tasks[t].pc.reply.Acked?
    requires Unbroken(Exec(INIT, evs).past, Exec(INIT, evs).tasks[t].pc.reply.version, j)
    ensures var s := Exec(INIT, evs);
            var v := s.tasks[t].pc.reply.version;
            && LogOk(s.past[v].doc) && LogOk(s.past[j].doc)
            && var n := |s.past[v].doc.log.steps|;
               1 <= n <= |s.past[j].doc.log.steps| && s.past[j].doc.log.steps[n - 1] == s.tasks[t].op.step
  {
    var s := Exec(INIT, evs);
    RunHasHistory(evs);
    NoLostUpdate(evs, t);
    hide Exec, Inv, LogOk;
    AcknowledgedStepStays(s.past, s.tasks[t].pc.reply.version, j);
  }

  /** With careful callers every acknowledged step is in the present log. */
  lemma CarefulAppendIsThere(evs: seq<Event>, t: TaskId)
    requires Careful(INIT, evs) && Calls(evs, OpsOf(ThreadKind))
    requires var s := Exec(INIT, evs);
             t in s.tasks && s.tasks[t].op.Append? && s.tasks[t].pc.Done? && s.tasks[t].pc.reply.Acked?
    ensures var s := Exec(INIT, evs);
            Now(s).Version? && LogOk(Now(s).doc) && s.tasks[t].op.step in Now(s).doc.log.steps
  {
    hide Exec, LogOk, Careful;
    var s := Exec(INIT, evs);
    CarefulThreadRun(evs);
    NoLostUpdate(evs, t);
    hide ThreadRun, Lossless, TaggedRun, LosslessAt;
    assert Unbroken(s.past, s.tasks[t].pc.reply.version, |s.past| - 1);
    AcknowledgedAppendStays(evs, t, |s.past| - 1);
  }

  /** Two acknowledged appends never share a version: each has a step of its own. */
  lemma AppendsAreDistinct(evs: seq<Event>, t: TaskId, u: TaskId)
    requires ThreadRun(evs) && t != u
    requires var s := Exec(INIT, evs); t in s.tasks && s.tasks[t].pc.Done? && s.tasks[t].pc.reply.Acked?
    requires var s := Exec(INIT, evs); u in s.tasks && s.tasks[u].pc.Done? && s.tasks[u].pc.reply.Acked?
    ensures var s := Exec(INIT, evs); s.tasks[t].pc.reply.version != s.tasks[u].pc.reply.version
  {
    NoLostUpdate(evs, t);
    NoLostUpdate(evs, u);
    hide Exec;
  }

  /** Between two moments of a run without a deletion in between, steps are only added, a lock is
      not released, and a locked title that is not empty is not changed. */
  lemma RunOnlyGrows(evs: seq<Event>, i: nat, j: nat)
    requires ThreadRun(evs) && Unbroken(Exec(INIT, evs).past, i, j)
    ensures var past := Exec(INIT, evs).past;
            && LogOk(past[i].doc) && LogOk(past[j].doc)
            && var a, b := past[i].doc.log, past[j].doc.log;
            && a.steps <= b.steps && (a.titleLocked ==> b.titleLocked)
            && (a.titleLocked && a.title.Some? && a.title.value != "" ==> b.title == a.title)
  {
    RunHasHistory(evs);
    LogOnlyGrows(Exec(INIT, evs).past, i, j);
  }

  /** With careful callers all preflight calls of all hosts return the same answer. */
  lemma CarefulPreflightsAgree(evs: seq<Event>, t: TaskId, u: TaskId, a: (nat, string), b: (nat, string))
    requires Careful(INIT, evs) && Calls(evs, OpsOf(ThreadKind))
    requires var s := Exec(INIT, evs); t in s.tasks && Answered(s.tasks[t], a) && u in s.tasks && Answered(s.tasks[u], b)
    ensures a == b
  {
    CarefulThreadRun(evs);
    RunHasHistory(evs);
    hide Exec;
    PreflightAgrees(Exec(INIT, evs), t, u, a, b);
  }

  // ---- Control state ---------------------------------------------------------------------

  /** The calls of one suite on its control state, `save` excepted. */
  predicate SuiteOp(suite: string, op: Op) {
    op.Delete? || ((op.Mutate? || op.Load?) && Trim(op.suite) == Trim(suite))
  }

  function SuiteOps(suite: string): Op -> bool {
    op => SuiteOp(suite, op)
  }

  lemma WriteIsMutate(past: seq<Version>, suite: string)
    requires |past| >= 2 && Last(past).Version? && LosslessAt(Last(Init(past)), Last(past))
    requires SuiteOp(suite, Last(past).op)
    ensures Last(past).op.Mutate?
  {
  }

  lemma {:induction false} EraIsOfSuite(past: seq<Version>, suite: string)
    requires Lossless(past) && past != [] && past[0].Gone?
    requires forall i :: 0 <= i < |past| && past[i].Version? ==> SuiteOp(suite, past[i].op)
    ensures MutatesOf(Era(past), suite)
  {
    if Last(past).Version? {
      LosslessPrefix(past);
      var before := Init(past);
      assert before[0] == past[0];
      assert forall i :: 0 <= i < |before| ==> before[i] == past[i];
      EraIsOfSuite(before, suite);
      EraSnoc(past);
      WriteIsMutate(past, suite);
      hide Era, Lossless;
    }
  }

  /** The payload that a suite reads is the composition of its successful mutations, in the order
      of their conditional writes since the state was last absent. */
  lemma {:induction false} PresentPayloadIsComposition(evs: seq<Event>, suite: string)
    requires TaggedRun(INIT, evs) && Calls(evs, SuiteOps(suite)) && Now(Exec(INIT, evs)).Version?
    ensures var s := Exec(INIT, evs);
            && MutatesOf(Era(s.past), suite) && Compose(Era(s.past)).Some?
            && Decode(Now(s).doc, suite) == Readable(Compose(Era(s.past)).value)
  {
    var s := Exec(INIT, evs);
    RunOk(INIT, evs);
    HistoryGrows(INIT, evs);
    OpsOfRun(INIT, evs, SuiteOps(suite));
    hide Exec;
    assert s.past[0].Gone? && Lossless(s.past);
    hide Inv, Lossless;
    EraIsOfSuite(s.past, suite);
    MutationsCompose(s.past, suite);
  }

  /** The same for careful callers, who need not look at the caches. */
  lemma {:induction false} CarefulPayloadIsComposition(evs: seq<Event>, suite: string)
    requires Careful(INIT, evs) && Calls(evs, SuiteOps(suite)) && Now(Exec(INIT, evs)).Version?
    ensures var s := Exec(INIT, evs);
            && MutatesOf(Era(s.past), suite) && Compose(Era(s.past)).Some?
            && Decode(Now(s).doc, suite) == Readable(Compose(Era(s.past)).value)
  {
    CarefulRunOk(INIT, evs, 1);
    hide Exec;
    PresentPayloadIsComposition(evs, suite);
  }

  lemma {:induction false} EraIsControl(past: seq<Version>)
    requires Lossless(past) && past != [] && past[0].Gone?
    requires forall i :: 0 <= i < |past| && past[i].Version? ==> OpOf(ControlKind, past[i].op)
    ensures ControlWrites(Era(past))
  {
    if Last(past).Version? {
      LosslessPrefix(past);
      var before := Init(past);
      assert before[0] == past[0];
      assert forall i :: 0 <= i < |before| ==> before[i] == past[i];
      EraIsControl(before);
      EraSnoc(past);
      assert Last(past).op.Mutate? || Last(past).op.Save?;
      hide Era, Lossless;
    }
  }

  /** With mutations of any suites the stored state is the last writer's. Its payload is the
      composition of that suite's mutations since another suite wrote, starting from none; the
      writer's suite reads it and no other does. */
  lemma PresentStateIsLastWriters(evs: seq<Event>, reader: string)
    requires TaggedRun(INIT, evs) && Calls(evs, OpsOf(ControlKind)) && Now(Exec(INIT, evs)).Version?
    ensures var s := Exec(INIT, evs); var ops := Era(s.past);
            && ControlWrites(ops) && ops != [] && PayloadAfter(ops).Some?
            && Decode(Now(s).doc, reader)
               == if Trim(reader) == Trim(Last(ops).suite) then Readable(PayloadAfter(ops).value) else Foreign
  {
    var s := Exec(INIT, evs);
    RunOk(INIT, evs);
    HistoryGrows(INIT, evs);
    OpsOfRun(INIT, evs, OpsOf(ControlKind));
    hide Exec;
    assert s.past[0].Gone? && Lossless(s.past);
    EraIsControl(s.past);
    hide Inv, Lossless, Era, Decode;
    ControlStateIsComposition(s.past);
    DecodeEncode(Last(Era(s.past)).suite, reader, PayloadAfter(Era(s.past)).value);
  }
}
