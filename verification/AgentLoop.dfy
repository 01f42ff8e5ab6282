/** The agent loop and the three bounds on it: agent steps, provider attempts and repeated
    failures. Providers, tools, policies and cancellation answer arbitrarily. */
module AgentLoop {
  import opened Text
  import opened BudgetMeter

  const LLM_RETRIES: nat := 2
  const PARSE_RETRIES: nat := 2
  const MAX_REPEATED_ACTION_FAILURES: nat := 3

  // ---- Retry -------------------------------------------------------------------------------

  datatype Attempt<T> = Good(value: T) | Transient | Fatal

  /** `retry_classified` over the outcomes of successive calls: the result is that of the first
      call that is not retryable, or of the call after the last delay. */
  method RetryClassified<T>(delays: seq<nat>, op: nat -> Attempt<T>) returns (last: Attempt<T>, calls: nat)
    ensures 1 <= calls <= |delays| + 1 && last == op(calls - 1)
    ensures forall i :: 0 <= i < calls - 1 ==> op(i).Transient?
    ensures last.Transient? ==> calls == |delays| + 1
  {
    last, calls := op(0), 1;
    for i := 0 to |delays|
      invariant calls == i + 1 && last == op(i)
      invariant forall j :: 0 <= j < i ==> op(j).Transient?
    {
      if !last.Transient? { return; }
      last, calls := op(calls), calls + 1;
    }
  }

  // ---- The meter and the ledger of failures --------------------------------------------------

  datatype Args = Args(text: string)
  type Action = (string, Args)

  /** Counts of failures per action; argument hashes are taken to be injective. */
  type Failures = map<Action, nat>

  function Count(f: Failures, a: Action): nat {
    if a in f then f[a] else 0
  }

  /** `ActionLedger::record_failure`. */
  method RecordFailure(f: Failures, action: Action) returns (f': Failures, third: bool)
    ensures forall a :: Count(f', a) == Count(f, a) + if a == action then 1 else 0
    ensures third <==> Count(f', action) >= MAX_REPEATED_ACTION_FAILURES
  {
    f' := f[action := Count(f, action) + 1];
    third := f'[action] >= MAX_REPEATED_ACTION_FAILURES;
  }

  /** The meter of a run. Its clones share the counters, so others may charge it meanwhile. */
  class Meter {
    const budget: RunBudget
    var llmCalls: U32
    var toolCalls: U32
    var agentSteps: U32

    constructor (budget: RunBudget)
      ensures this.budget == budget && llmCalls == toolCalls == agentSteps == 0
    {
      this.budget := budget;
      llmCalls, toolCalls, agentSteps := 0, 0, 0;
    }

    ghost predicate Valid()
      reads this
    {
      && llmCalls <= budget.maxLlmCalls && toolCalls <= budget.maxToolCalls
      && agentSteps <= budget.maxAgentSteps
    }

    /** Charges by sub-agents, policy hooks and whoever else holds a clone. */
    method Others()
      requires Valid()
      modifies this
      ensures Valid() && llmCalls >= old(llmCalls) && toolCalls >= old(toolCalls) && agentSteps >= old(agentSteps)
    {
      var l: U32, t: U32, a: U32 :|
        llmCalls <= l <= budget.maxLlmCalls && toolCalls <= t <= budget.maxToolCalls
        && agentSteps <= a <= budget.maxAgentSteps;
      llmCalls, toolCalls, agentSteps := l, t, a;
    }

    method ChargeLlm() returns (ok: bool)
      requires Valid()
      modifies this`llmCalls
      ensures Valid() && (ok <==> old(llmCalls) < budget.maxLlmCalls)
      ensures llmCalls == old(llmCalls) + if ok then 1 else 0
    {
      ok := llmCalls < budget.maxLlmCalls;
      if ok { llmCalls := llmCalls + 1; }
    }

    method ChargeTool() returns (ok: bool)
      requires Valid()
      modifies this`toolCalls
      ensures Valid() && (ok <==> old(toolCalls) < budget.maxToolCalls)
      ensures toolCalls == old(toolCalls) + if ok then 1 else 0
    {
      ok := toolCalls < budget.maxToolCalls;
      if ok { toolCalls := toolCalls + 1; }
    }

    method ChargeStep() returns (ok: bool)
      requires Valid()
      modifies this`agentSteps
      ensures Valid() && (ok <==> old(agentSteps) < budget.maxAgentSteps)
      ensures agentSteps == old(agentSteps) + if ok then 1 else 0
    {
      ok := agentSteps < budget.maxAgentSteps;
      if ok { agentSteps := agentSteps + 1; }
    }
  }

  // ---- LLM calls ---------------------------------------------------------------------------

  datatype LlmReply = Text(text: string) | TransientError | Cancelled | OutOfBudget | FatalError

  datatype AgentStep = CompleteStep(env: string) | ToolStep(name: string, args: Args)
  datatype Parsed = Parsed(step: AgentStep) | Retriable | Unretriable

  datatype RunEnd = Completed(result: string) | Interrupted | FellBack(stepLimit: bool) | Aborted

  // ---- What happens in a run, and where it must end -------------------------------------------

  datatype Verdict = Accepted(result: string) | Rejected | PolicyError

  /** Everything the loop is told by the meter, the cancel flag, the provider, the parser, the
      tools and the policy, in order. */
  datatype Happening =
    | Step(charged: bool)
    | CancelSeen(yes: bool)
    | Tried(reply: LlmReply)
    | Judged(p: Parsed)
    | Completing(v: Verdict)
    | Ran(action: Action, ok: bool)
    | PolicyAsked(interrupt: bool)

  function Last(t: seq<Happening>): Happening
    requires t != []
  {
    t[|t| - 1]
  }

  function Init(t: seq<Happening>): seq<Happening>
    requires t != []
  {
    t[..|t| - 1]
  }

  /** Transient replies at the end. */
  function Transients(t: seq<Happening>): nat {
    if t != [] && Last(t) == Tried(TransientError) then 1 + Transients(Init(t)) else 0
  }

  /** Retriable parse errors in the present iteration. */
  function Retries(t: seq<Happening>): nat {
    if t == [] || Last(t).Step? then 0
    else Retries(Init(t)) + if Last(t) == Judged(Retriable) then 1 else 0
  }

  /** How often an action has failed. */
  function FailuresOf(t: seq<Happening>, a: Action): nat {
    if t == [] then 0 else FailuresOf(Init(t), a) + if Last(t) == Ran(a, false) then 1 else 0
  }

  function Iterations(t: seq<Happening>): nat {
    if t == [] then 0 else Iterations(Init(t)) + if Last(t) == Step(true) then 1 else 0
  }

  /** The last outcome is the third failure of its action, and the policy lets the loop go on. */
  predicate ThirdFailure(t: seq<Happening>) {
    && |t| >= 2 && Last(t) == PolicyAsked(false)
    && t[|t| - 2].Ran? && !t[|t| - 2].ok && FailuresOf(t, t[|t| - 2].action) >= MAX_REPEATED_ACTION_FAILURES
  }

  /** Whether a run ends after these happenings, and how. */
  function Ends(t: seq<Happening>): Option<RunEnd> {
    if t == [] then None
    else
      match Last(t)
      case Step(charged) => if charged then None else Some(FellBack(true))
      case CancelSeen(yes) => if yes then Some(Aborted) else None
      case Tried(Text(_)) => None
      case Tried(TransientError) => if Transients(t) > LLM_RETRIES then Some(Aborted) else None
      case Tried(_) => Some(Aborted)
      case Judged(Parsed(_)) => None
      case Judged(Retriable) => if Retries(t) > PARSE_RETRIES then Some(Aborted) else None
      case Judged(Unretriable) => Some(Aborted)
      case Completing(Accepted(result)) => Some(Completed(result))
      case Completing(Rejected) => None
      case Completing(PolicyError) => Some(Aborted)
      case Ran(_, _) => None
      case PolicyAsked(interrupt) =>
        if interrupt then Some(Interrupted) else if ThirdFailure(t) then Some(FellBack(false)) else None
  }

  /** What is asked next: a step is charged, the cancel flag read, the model called until it
      answers, the answer parsed, and then a completion judged or a tool run and the policy asked. */
  predicate Next(p: Happening, h: Happening) {
    match p
    case Step(_) => h.CancelSeen?
    case CancelSeen(_) => h.Tried?
    case Tried(reply) => (reply.Text? && h.Judged?) || (reply.TransientError? && h.Tried?)
    case Judged(Parsed(CompleteStep(_))) => h.Completing?
    case Judged(Parsed(ToolStep(name, args))) => h.Ran? && h.action == (name, args)
    case Judged(_) => h.Tried?
    case Completing(_) => h.Step?
    case Ran(_, _) => h.PolicyAsked?
    case PolicyAsked(_) => h.Step?
  }

  ghost predicate Walk(t: seq<Happening>) {
    (t != [] ==> t[0].Step?) && forall i :: 0 < i < |t| ==> Next(t[i - 1], t[i])
  }

  /** A run that has not come to an end. */
  ghost predicate Going(t: seq<Happening>) {
    Walk(t) && forall i :: 0 <= i <= |t| ==> Ends(t[..i]).None?
  }

  /** A run whose next iteration begins. */
  ghost predicate Ready(t: seq<Happening>) {
    Going(t) && (t == [] || Next(Last(t), Step(true)))
  }

  /** A run that has just come to its end, and could not have ended before. */
  ghost predicate Over(t: seq<Happening>, end: RunEnd) {
    t != [] && Walk(t) && Going(Init(t)) && Ends(t) == Some(end)
  }

  lemma Extend(t: seq<Happening>, h: Happening)
    requires Going(t) && (if t == [] then h.Step? else Next(Last(t), h))
    ensures match Ends(t + [h]) case None => Going(t + [h]) case Some(end) => Over(t + [h], end)
  {
    hide Ends, Next;
    var t' := t + [h];
    assert Init(t') == t;
    assert t'[..|t'|] == t';
    forall i | 0 < i < |t'| ensures Next(t'[i - 1], t'[i]) {
      if i < |t| { assert Next(t[i - 1], t[i]); }
    }
    forall i | 0 <= i <= |t| ensures t'[..i] == t[..i] {}
  }

  lemma CountsAfter(t: seq<Happening>, h: Happening)
    ensures Retries(t + [h]) == (if h.Step? then 0 else Retries(t) + if h == Judged(Retriable) then 1 else 0)
    ensures Transients(t + [h]) == if h == Tried(TransientError) then 1 + Transients(t) else 0
    ensures Iterations(t + [h]) == Iterations(t) + if h == Step(true) then 1 else 0
    ensures forall a :: FailuresOf(t + [h], a) == FailuresOf(t, a) + if h == Ran(a, false) then 1 else 0
  {
    assert Init(t + [h]) == t;
  }

  /** A run falls back for failures exactly when its last outcome is the third failure of one
      action and the policy did not interrupt. */
  lemma FallsBackExactlyAtThirdFailure(t: seq<Happening>, end: RunEnd)
    requires Over(t, end)
    ensures end == FellBack(false) <==> ThirdFailure(t)
    ensures forall i :: 0 <= i < |t| ==> !ThirdFailure(t[..i])
  {
    forall i | 0 <= i < |t| ensures !ThirdFailure(t[..i]) {
      assert Init(t)[..i] == t[..i] && Ends(Init(t)[..i]).None?;
    }
  }

  lemma NothingYet()
    ensures Ready([]) && Iterations([]) == 0 && forall a :: Count(map[], a) == FailuresOf([], a) == 0
  {
    var t: seq<Happening> := [];
    assert forall i :: 0 <= i <= |t| ==> t[..i] == [];
  }

  // ---- The loop ------------------------------------------------------------------------------

  class Agent {
    const meter: Meter
    /** Provider calls and tool calls actually started in the present run. */
    var attempts: nat
    var toolRuns: nat
    ghost var trace: seq<Happening>

    constructor (meter: Meter)
      ensures this.meter == meter && attempts == toolRuns == 0 && trace == []
    {
      this.meter := meter;
      attempts, toolRuns, trace := 0, 0, [];
    }

    /** The counters have not gone down. */
    ghost predicate Grown(llm: U32, tool: U32, step: U32)
      reads this, meter
    {
      meter.llmCalls >= llm && meter.toolCalls >= tool && meter.agentSteps >= step
    }

    /** One happening is appended to the trace. */
    ghost predicate Adds(t: seq<Happening>, h: Happening)
      reads this
    {
      trace == t + [h]
    }

    /** What was appended to the trace is neither a step nor a failure. */
    ghost predicate SameFailures(t: seq<Happening>)
      reads this
    {
      Iterations(trace) == Iterations(t) && forall a :: FailuresOf(trace, a) == FailuresOf(t, a)
    }

    /** The charge at the head of the loop. */
    method BeginStep() returns (charged: bool)
      requires meter.Valid() && Ready(trace)
      modifies this`trace, meter`agentSteps
      ensures meter.Valid() && Adds(old(trace), Step(charged)) && trace != [] && Last(trace) == Step(charged)
      ensures meter.agentSteps == old(meter.agentSteps) + if charged then 1 else 0
      ensures Iterations(trace) == Iterations(old(trace)) + if charged then 1 else 0
      ensures Retries(trace) == 0 && forall a :: FailuresOf(trace, a) == FailuresOf(old(trace), a)
      ensures charged ==> Going(trace)
      ensures !charged ==> Over(trace, FellBack(true)) && meter.agentSteps == meter.budget.maxAgentSteps
    {
      charged := meter.ChargeStep();
      Extend(trace, Step(charged));
      CountsAfter(trace, Step(charged));
      trace := trace + [Step(charged)];
    }

    method SeeCancel() returns (yes: bool)
      requires Going(trace) && trace != [] && Last(trace) == Step(true) && Retries(trace) == 0
      modifies this`trace
      ensures Adds(old(trace), CancelSeen(yes)) && trace != [] && Last(trace) == CancelSeen(yes)
      ensures SameFailures(old(trace)) && Retries(trace) == 0
      ensures if yes then Over(trace, Aborted) else Going(trace)
    {
      yes := *;
      Extend(trace, CancelSeen(yes));
      CountsAfter(trace, CancelSeen(yes));
      trace := trace + [CancelSeen(yes)];
    }

    /** `invoke_llm_once`: the cancel flag, the charge, the provider. */
    method InvokeOnce() returns (r: LlmReply)
      requires meter.Valid()
      modifies this, meter
      ensures meter.Valid() && Grown(old(meter.llmCalls), old(meter.toolCalls), old(meter.agentSteps))
      ensures toolRuns == old(toolRuns) && trace == old(trace) + [Tried(r)]
      ensures 0 <= attempts - old(attempts) <= 1 && attempts - old(attempts) <= meter.llmCalls - old(meter.llmCalls)
      ensures r.Text? || r.TransientError? ==> attempts == old(attempts) + 1
      ensures r.OutOfBudget? ==> meter.llmCalls == meter.budget.maxLlmCalls
    {
      r := *;
      var early: bool := *;
      if r.Cancelled? && early {
        trace := trace + [Tried(r)];
        return;
      }
      meter.Others();
      var ok := meter.ChargeLlm();
      if !ok {
        r := OutOfBudget;
        trace := trace + [Tried(r)];
        return;
      }
      attempts := attempts + 1;
      meter.Others();
      if r.OutOfBudget? { r := FatalError; }
      trace := trace + [Tried(r)];
    }

    /** `invoke_llm`: `retry_classified` around the single call. */
    method Invoke() returns (r: LlmReply)
      requires meter.Valid() && Going(trace) && trace != []
      requires Last(trace) == CancelSeen(false) || Last(trace) == Judged(Retriable)
      modifies this, meter
      ensures meter.Valid() && Grown(old(meter.llmCalls), old(meter.toolCalls), old(meter.agentSteps))
      ensures toolRuns == old(toolRuns) && SameFailures(old(trace)) && Retries(trace) == Retries(old(trace))
      ensures if r.Text? then Going(trace) && trace != [] && Last(trace) == Tried(r) else Over(trace, Aborted)
      ensures 0 <= attempts - old(attempts) <= LLM_RETRIES + 1
      ensures attempts - old(attempts) <= meter.llmCalls - old(meter.llmCalls)
      ensures r.TransientError? ==> attempts == old(attempts) + LLM_RETRIES + 1
      ensures r.Text? ==> attempts > old(attempts)
      ensures r.OutOfBudget? ==> meter.llmCalls == meter.budget.maxLlmCalls
    {
      ghost var before := trace;
      r := InvokeOnce();
      Extend(before, Tried(r));
      CountsAfter(before, Tried(r));
      for i := 0 to LLM_RETRIES
        invariant meter.Valid() && Grown(old(meter.llmCalls), old(meter.toolCalls), old(meter.agentSteps))
        invariant toolRuns == old(toolRuns) && SameFailures(old(trace)) && Retries(trace) == Retries(old(trace))
        invariant trace != [] && Last(trace) == Tried(r) && (r.TransientError? ==> Transients(trace) == i + 1)
        invariant match Ends(trace) case None => Going(trace) case Some(end) => Over(trace, end)
        invariant 0 <= attempts - old(attempts) <= i + 1
        invariant attempts - old(attempts) <= meter.llmCalls - old(meter.llmCalls)
        invariant r.TransientError? ==> attempts == old(attempts) + i + 1
        invariant r.Text? ==> attempts > old(attempts)
        invariant r.OutOfBudget? ==> meter.llmCalls == meter.budget.maxLlmCalls
      {
        if !r.TransientError? { return; }
        before := trace;
        r := InvokeOnce();
        Extend(before, Tried(r));
        CountsAfter(before, Tried(r));
      }
    }

    method Parse(raw: string) returns (p: Parsed)
      modifies this`trace
      ensures trace == old(trace) + [Judged(p)]
    {
      p := *;
      trace := trace + [Judged(p)];
    }

    /** One chat and the parsing of its answer. */
    method ChatOnce() returns (p: Parsed)
      requires meter.Valid() && Going(trace) && trace != []
      requires Last(trace) == CancelSeen(false) || Last(trace) == Judged(Retriable)
      modifies this, meter
      ensures meter.Valid() && Grown(old(meter.llmCalls), old(meter.toolCalls), old(meter.agentSteps))
      ensures toolRuns == old(toolRuns) && SameFailures(old(trace))
      ensures 0 <= attempts - old(attempts) <= LLM_RETRIES + 1
      ensures attempts - old(attempts) <= meter.llmCalls - old(meter.llmCalls)
      ensures p.Parsed? ==> attempts > old(attempts) && Going(trace) && trace != [] && Last(trace) == Judged(p)
      ensures p.Retriable? ==>
                && trace != [] && Last(trace) == Judged(p) && Retries(trace) == Retries(old(trace)) + 1
                && if Retries(trace) > PARSE_RETRIES then Over(trace, Aborted) else Going(trace)
      ensures p.Unretriable? ==> Over(trace, Aborted)
    {
      var reply := Invoke();
      if !reply.Text? { return Unretriable; }
      ghost var before := trace;
      p := Parse(reply.text);
      Extend(before, Judged(p));
      CountsAfter(before, Judged(p));
    }

    /** The first chat of an iteration and `parse_with_retry`: at most two further chats. */
    method ChatAndParse() returns (step: Option<AgentStep>)
      requires meter.Valid() && Going(trace) && trace != [] && Last(trace) == CancelSeen(false) && Retries(trace) == 0
      modifies this, meter
      ensures meter.Valid() && Grown(old(meter.llmCalls), old(meter.toolCalls), old(meter.agentSteps))
      ensures toolRuns == old(toolRuns) && SameFailures(old(trace))
      ensures match step
              case Some(x) => Going(trace) && trace != [] && Last(trace) == Judged(Parsed(x))
              case None => Over(trace, Aborted)
      ensures 0 <= attempts - old(attempts) <= (PARSE_RETRIES + 1) * (LLM_RETRIES + 1)
      ensures attempts - old(attempts) <= meter.llmCalls - old(meter.llmCalls)
      ensures step.Some? ==> attempts > old(attempts)
    {
      var p := ChatOnce();
      if p.Retriable? {
        p := ChatOnce();
        if p.Retriable? { p := ChatOnce(); }
      }
      if p.Parsed? { return Some(p.step); }
      return None;
    }

    /** `execute_tool_call`: a cancelled or unpaid call is a failed outcome, not an error. The
        tool itself may charge the meter. */
    method ExecuteTool(name: string, args: Args) returns (ok: bool)
      requires meter.Valid() && Going(trace) && trace != [] && Last(trace) == Judged(Parsed(ToolStep(name, args)))
      modifies this, meter
      ensures meter.Valid() && Grown(old(meter.llmCalls), old(meter.toolCalls), old(meter.agentSteps))
      ensures attempts == old(attempts) && Adds(old(trace), Ran((name, args), ok))
      ensures Going(trace) && trace != [] && Last(trace) == Ran((name, args), ok)
      ensures Iterations(trace) == Iterations(old(trace))
      ensures forall a :: FailuresOf(trace, a) == FailuresOf(old(trace), a) + if !ok && a == (name, args) then 1 else 0
      ensures 0 <= toolRuns - old(toolRuns) <= 1 && toolRuns - old(toolRuns) <= meter.toolCalls - old(meter.toolCalls)
      ensures ok ==> toolRuns == old(toolRuns) + 1
    {
      ok := *;
      var cancelled: bool := *;
      if ok || !cancelled {
        var paid := meter.ChargeTool();
        if paid {
          toolRuns := toolRuns + 1;
          meter.Others();
        } else {
          ok := false;
        }
      }
      Extend(trace, Ran((name, args), ok));
      CountsAfter(trace, Ran((name, args), ok));
      trace := trace + [Ran((name, args), ok)];
    }

    method JudgeCompletion(env: string) returns (v: Verdict)
      requires meter.Valid() && Going(trace) && trace != [] && Last(trace) == Judged(Parsed(CompleteStep(env)))
      modifies this`trace, meter
      ensures meter.Valid() && Grown(old(meter.llmCalls), old(meter.toolCalls), old(meter.agentSteps))
      ensures Adds(old(trace), Completing(v)) && SameFailures(old(trace))
      ensures match v
              case Accepted(result) => Over(trace, Completed(result))
              case Rejected => Ready(trace)
              case PolicyError => Over(trace, Aborted)
    {
      meter.Others();
      v := *;
      Extend(trace, Completing(v));
      CountsAfter(trace, Completing(v));
      trace := trace + [Completing(v)];
    }

    method AskPolicy(action: Action, ok: bool) returns (interrupt: bool)
      requires meter.Valid() && Going(trace) && trace != [] && Last(trace) == Ran(action, ok)
      modifies this`trace, meter
      ensures meter.Valid() && Grown(old(meter.llmCalls), old(meter.toolCalls), old(meter.agentSteps))
      ensures Adds(old(trace), PolicyAsked(interrupt)) && SameFailures(old(trace))
      ensures if interrupt then Over(trace, Interrupted)
              else if !ok && FailuresOf(trace, action) >= MAX_REPEATED_ACTION_FAILURES then Over(trace, FellBack(false))
              else Ready(trace)
    {
      meter.Others();
      interrupt := *;
      ghost var h := PolicyAsked(interrupt);
      Extend(trace, h);
      CountsAfter(trace, h);
      trace := trace + [h];
      assert trace[|trace| - 2] == Ran(action, ok);
    }

    /** `run_until_block`. The run asks what it must in the order it must, and ends at the first
        happening that calls for it, as it calls for it: so a completion was accepted, an
        interrupt was the policy's, an abort had its cause, and a fallback means that the steps
        are spent or that the last outcome is the third failure of its action. Every run ends,
        whoever else charges the meter: within the agent steps left, nine provider attempts a
        step and the calls left, one tool call a step and the calls left, and three failures of
        any one action. */
    method RunUntilBlock() returns (end: RunEnd, iterations: nat, failed: Failures)
      requires meter.Valid() && attempts == toolRuns == 0 && trace == []
      modifies this, meter
      ensures meter.Valid()
      ensures Over(trace, end) && iterations == Iterations(trace)
      ensures forall a :: FailuresOf(trace, a) <= MAX_REPEATED_ACTION_FAILURES
      ensures !end.Interrupted? ==> forall a :: Count(failed, a) == FailuresOf(trace, a)
      ensures iterations <= meter.agentSteps - old(meter.agentSteps) <= meter.budget.maxAgentSteps - old(meter.agentSteps)
      ensures attempts <= meter.llmCalls - old(meter.llmCalls) <= meter.budget.maxLlmCalls - old(meter.llmCalls)
      ensures attempts <= 9 * iterations
      ensures toolRuns <= iterations && toolRuns <= meter.budget.maxToolCalls - old(meter.toolCalls)
      ensures end.FellBack? && end.stepLimit ==> meter.agentSteps == meter.budget.maxAgentSteps
      ensures end == FellBack(false) <==> ThirdFailure(trace)
      ensures end.Completed? ==> attempts > 0
    {
      hide Adds, Count, Last, Ready, Going, Over, Next, Ends, FailuresOf, Iterations, Retries, ThirdFailure;
      iterations, failed := 0, map[];
      NothingYet();
      while true
        invariant meter.Valid() && Grown(old(meter.llmCalls), old(meter.toolCalls), old(meter.agentSteps))
        invariant Ready(trace)
        invariant iterations == Iterations(trace) <= meter.agentSteps - old(meter.agentSteps)
        invariant attempts <= meter.llmCalls - old(meter.llmCalls) && attempts <= 9 * iterations
        invariant toolRuns <= meter.toolCalls - old(meter.toolCalls) && toolRuns <= iterations
        invariant forall a :: Count(failed, a) == FailuresOf(trace, a) < MAX_REPEATED_ACTION_FAILURES
        decreases meter.budget.maxAgentSteps - meter.agentSteps
      {
        var charged := BeginStep();
        if !charged { end := FellBack(true); break; }
        iterations := iterations + 1;
        var cancelled := SeeCancel();
        if cancelled { end := Aborted; break; }
        var step := ChatAndParse();
        if step.None? { end := Aborted; break; }
        match step.value {
          case CompleteStep(env) =>
            var v := JudgeCompletion(env);
            if v.Accepted? { end := Completed(v.result); break; }
            if v.PolicyError? { end := Aborted; break; }
          case ToolStep(name, args) =>
            var action := (name, args);
            var ok := ExecuteTool(name, args);
            var interrupt := AskPolicy(action, ok);
            if interrupt { end := Interrupted; break; }
            if !ok {
              var third: bool;
              failed, third := RecordFailure(failed, action);
              if third { end := FellBack(false); break; }
            }
        }
      }
      FallsBackExactlyAtThirdFailure(trace, end);
    }
  }
}
