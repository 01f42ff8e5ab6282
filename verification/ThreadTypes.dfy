/** The data of a thread: steps, the log, the control-state envelope, and what each
    operation of the two stores does to the document it has loaded. */
module ThreadTypes {
  import opened Text

  const THREAD_SCHEMA_VERSION: nat := 4
  const CONTROL_STATE_SCHEMA_VERSION: nat := 1
  const AUDIT_MAX_CONFLICT_RETRIES: nat := 5

  /** Entity tags are opaque; the program only compares them for equality. */
  type Etag = nat

  /** A completion payload, by the three places a display text is looked for. */
  datatype Payload = Payload(text: Option<string>, answer: Option<string>, rendered: string)

  /** Timestamps are milliseconds. `Recorded` stands for the kinds that no modelled fold
      looks at: tool, LLM and artifact steps. */
  datatype ThreadStep =
    | SwitchSuite(to: string, ts: int)
    | SwitchAgent(to: string, ts: int)
    | User(text: string, ts: int)
    | Phase(phase: string, fromPhase: Option<string>, reasonCode: Option<string>,
            suiteId: Option<string>, ts: int, agent: string)
    | GuardBlock(reason: string, ts: int)
    | RunLoopStop(reason: string, ts: int)
    | Interrupt(kind: string, prompt: string, ts: int)
    | ReviewResponse(text: string, ts: int)
    | Complete(kind: string, payload: Payload, display: Option<string>, ok: bool, ts: int)
    | Checkpoint(display: Option<string>, ts: int)
    | Recorded(what: string, ts: int)

  datatype ThreadResult = ThreadResult(kind: string, payload: Payload, display: Option<string>)

  datatype ThreadLog = ThreadLog(
    schemaVersion: nat,
    steps: seq<ThreadStep>,
    result: Option<ThreadResult>,
    title: Option<string>,
    titleLocked: bool)

  const DEFAULT_LOG := ThreadLog(THREAD_SCHEMA_VERSION, [], None, None, false)

  datatype Envelope = Envelope(schemaVersion: nat, suiteId: string, payload: string)

  /** A stored JSON document, by the type it deserialises to. */
  datatype Doc = LogDoc(log: ThreadLog) | EnvelopeDoc(env: Envelope) | OtherDoc(json: string)

  predicate GoodLog(d: Doc) {
    d.LogDoc? && d.log.schemaVersion == THREAD_SCHEMA_VERSION
  }

  // ---- Control-state envelope ------------------------------------------------------------

  function Encode(suiteId: string, payload: string): Doc {
    EnvelopeDoc(Envelope(CONTROL_STATE_SCHEMA_VERSION, Trim(suiteId), payload))
  }

  datatype Decoded = Malformed | Foreign | Readable(payload: string)

  function Decode(raw: Doc, expectedSuiteId: string): Decoded {
    if !raw.EnvelopeDoc? then Malformed
    else if raw.env.schemaVersion == CONTROL_STATE_SCHEMA_VERSION
            && Trim(raw.env.suiteId) == Trim(expectedSuiteId) then Readable(raw.env.payload)
    else Foreign
  }

  /** Decoding an encoded payload gives it back exactly for the suite ids that agree with
      the writer's up to trimming, and hides it from every other suite. */
  lemma DecodeEncode(suiteId: string, reader: string, payload: string)
    ensures Decode(Encode(suiteId, payload), reader)
         == if Trim(suiteId) == Trim(reader) then Readable(payload) else Foreign
  {
    TrimIdempotent(suiteId);
  }

  // ---- Operations ------------------------------------------------------------------------

  /** `Mutate` carries the caller's closure; `None` from it is an error. `Load` and `Save` are
      the other calls of the control-state store. */
  datatype Op =
    | Get
    | Delete
    | Append(step: ThreadStep)
    | Preflight(agent: string, suiteId: Option<string>, phase: string, ts: int)
    | SetTitle(title: string)
    | LockTitle(title: string)
    | Mutate(suite: string, f: Option<string> -> Option<string>)
    | Load(suite: string)
    | Save(suite: string, payload: string)

  /** The two stores keep their documents under different keys. */
  datatype Kind = ThreadKind | ControlKind

  predicate OpOf(kind: Kind, op: Op) {
    op.Delete? || (kind.ControlKind? <==> op.Mutate? || op.Load? || op.Save?)
  }

  /** A document as the store of that kind writes it. */
  predicate GoodDoc(kind: Kind, d: Doc) {
    match kind
    case ThreadKind => GoodLog(d)
    case ControlKind =>
      d.EnvelopeDoc? && d.env.schemaVersion == CONTROL_STATE_SCHEMA_VERSION && Trim(d.env.suiteId) == d.env.suiteId
  }

  /** What an operation decides once it has its document: write a new one, answer without
      writing, or fail. `at` is the phase position that `ensure_preflight_phase_step` returns. */
  datatype Plan = Write(next: Doc, at: Option<(nat, string)>)
                | Settled(at: Option<(nat, string)>)
                | Refused

  function FirstPhase(steps: seq<ThreadStep>, from: nat): (r: Option<nat>)
    requires from <= |steps|
    ensures r.None? ==> forall i :: from <= i < |steps| ==> !steps[i].Phase?
    ensures r.Some? ==> from <= r.value < |steps| && steps[r.value].Phase?
                        && forall i :: from <= i < r.value ==> !steps[i].Phase?
    decreases |steps| - from
  {
    if from == |steps| then None
    else if steps[from].Phase? then Some(from)
    else FirstPhase(steps, from + 1)
  }

  function AppendStep(log: ThreadLog, step: ThreadStep): ThreadLog {
    var marked := if step.Complete?
                  then log.(result := Some(ThreadResult(step.kind, step.payload, step.display)))
                  else log;
    marked.(steps := log.steps + [step])
  }

  function PreflightStep(agent: string, suiteId: Option<string>, phase: string, ts: int): ThreadStep {
    Phase(phase, None, Some("thread_started"), suiteId, ts, agent)
  }

  function PlanLog(op: Op, log: ThreadLog): Plan {
    match op
    case Append(step) => Write(LogDoc(AppendStep(log, step)), None)
    case Preflight(agent, suiteId, phase, ts) =>
      (match FirstPhase(log.steps, 0)
       case Some(i) => Settled(Some((i, log.steps[i].phase)))
       case None =>
         Write(LogDoc(log.(steps := log.steps + [PreflightStep(agent, suiteId, phase, ts)])),
               Some((|log.steps|, phase))))
    case SetTitle(title) =>
      if log.title == None || log.title.value == ""
      then Write(LogDoc(log.(title := Some(title))), None) else Settled(None)
    case LockTitle(title) =>
      if !log.titleLocked
      then Write(LogDoc(log.(title := Some(title), titleLocked := true)), None) else Settled(None)
    case _ => Refused
  }

  function PlanMutate(suite: string, f: Option<string> -> Option<string>, current: Option<string>): Plan {
    match f(current)
    case Some(next) => Write(Encode(suite, next), None)
    case None => Refused
  }

  /** The decision an operation takes on the document it loaded (`None`: there is none). `Save`
      overwrites whatever is there. */
  function Decide(op: Op, base: Option<Doc>): Plan {
    if op.Save? then Write(Encode(op.suite, op.payload), None)
    else if op.Mutate? then
      (match base
       case None => PlanMutate(op.suite, op.f, None)
       case Some(d) =>
         match Decode(d, op.suite)
         case Malformed => Refused
         case Foreign => PlanMutate(op.suite, op.f, None)
         case Readable(p) => PlanMutate(op.suite, op.f, Some(p)))
    else
      match base
      case None => PlanLog(op, DEFAULT_LOG)
      case Some(d) => if GoodLog(d) then PlanLog(op, d.log) else Refused
  }

  /** An operation writes documents of its own kind. */
  lemma WritesGoodDoc(kind: Kind, op: Op, base: Option<Doc>)
    requires OpOf(kind, op) && Decide(op, base).Write?
    ensures GoodDoc(kind, Decide(op, base).next)
  {
    if op.Save? || op.Mutate? { TrimIdempotent(op.suite); }
  }

  // ---- What the stores promise, apart from how it is decided -------------------------------

  const EMPTY_LOG := ThreadLog(4, [], None, None, false)

  /** A write of a thread operation, field by field: from the log `a` it makes the log `b`. */
  ghost predicate Effect(op: Op, a: ThreadLog, b: ThreadLog) {
    && b.schemaVersion == a.schemaVersion
    && match op
       case Append(x) =>
         && b.steps == a.steps + [x] && b.title == a.title && b.titleLocked == a.titleLocked
         && b.result == if x.Complete? then Some(ThreadResult(x.kind, x.payload, x.display)) else a.result
       case Preflight(agent, suiteId, phase, ts) =>
         && (forall i :: 0 <= i < |a.steps| ==> !a.steps[i].Phase?)
         && b.steps == a.steps + [Phase(phase, None, Some("thread_started"), suiteId, ts, agent)]
         && b.title == a.title && b.titleLocked == a.titleLocked && b.result == a.result
       case SetTitle(title) =>
         && (a.title.None? || a.title.value == "") && b.title == Some(title)
         && b.steps == a.steps && b.titleLocked == a.titleLocked && b.result == a.result
       case LockTitle(title) =>
         && !a.titleLocked && b.titleLocked && b.title == Some(title)
         && b.steps == a.steps && b.result == a.result
       case _ => false
  }

  /** A thread operation that finds nothing to write. */
  ghost predicate NothingToDo(op: Op, a: ThreadLog) {
    || (op.Preflight? && exists i :: 0 <= i < |a.steps| && a.steps[i].Phase?)
    || (op.SetTitle? && a.title.Some? && a.title.value != "")
    || (op.LockTitle? && a.titleLocked)
  }

  /** The log that an operation starts from; a new thread has an empty one. */
  function BaseLog(base: Option<Doc>): ThreadLog {
    if base.Some? && base.value.LogDoc? then base.value.log else EMPTY_LOG
  }

  predicate WritesLogs(op: Op) {
    op.Append? || op.Preflight? || op.SetTitle? || op.LockTitle?
  }

  /** The decision of a thread operation on a log of this schema, or on none, is a write exactly
      where there is something to do, and the write is the promised one. */
  lemma DecisionIsPromised(op: Op, base: Option<Doc>)
    requires WritesLogs(op) && (base.Some? ==> GoodLog(base.value))
    ensures var plan := Decide(op, base);
            && !plan.Refused?
            && (plan.Write? <==> !NothingToDo(op, BaseLog(base)))
            && (plan.Write? ==> GoodLog(plan.next) && Effect(op, BaseLog(base), plan.next.log))
  {
    var log := BaseLog(base);
    if op.Preflight? && FirstPhase(log.steps, 0).Some? {
      assert log.steps[FirstPhase(log.steps, 0).value].Phase?;
    }
  }

  /** On anything else a thread operation is refused. */
  lemma ForeignDocIsRefused(op: Op, base: Option<Doc>)
    requires WritesLogs(op)
    ensures Decide(op, base).Refused? <==> base.Some? && !GoodLog(base.value)
  {
  }

  /** The payload that a suite reads from a control-state document. */
  function PayloadFor(suite: string, base: Option<Doc>): Option<string> {
    if base.Some? && Decode(base.value, suite).Readable? then Some(Decode(base.value, suite).payload) else None
  }

  /** A mutation hands its suite's own payload to the caller's function, `None` if the state is
      absent or another suite's, and stores what the function returns. */
  lemma MutationIsPromised(op: Op, base: Option<Doc>)
    requires op.Mutate?
    ensures var plan := Decide(op, base);
            && !plan.Settled?
            && (plan.Write? <==> !(base.Some? && Decode(base.value, op.suite).Malformed?)
                                 && op.f(PayloadFor(op.suite, base)).Some?)
            && (plan.Write? ==> plan.next == Encode(op.suite, op.f(PayloadFor(op.suite, base)).value))
  {
  }
}
