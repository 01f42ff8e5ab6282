/** The shared run meter: compare-exchange charging against ceilings that may be raised. */
module BudgetMeter {
  import opened Text
  import opened Executions
  import opened Widths

  type U32 = n: int | 0 <= n <= U32_MAX

  datatype Charge = LlmCall | ToolCall | AgentStep

  datatype RunBudget = RunBudget(maxLlmCalls: U32, maxToolCalls: U32, maxAgentSteps: U32)

  /** The final clamp of the source to at least 8 can never apply, as the contract says. */
  function PerRun(maxAgentSteps: U32): (per: U32)
    ensures per >= 8 && per >= maxAgentSteps
    ensures maxAgentSteps >= 1 && 8 * maxAgentSteps <= U32_MAX ==> per == 8 * maxAgentSteps
    ensures 8 * maxAgentSteps > U32_MAX ==> per == U32_MAX
    ensures maxAgentSteps == 0 ==> per == 8
  {
    if maxAgentSteps == 0 then 8
    else if maxAgentSteps > U32_MAX / 8 then U32_MAX
    else maxAgentSteps * 8
  }

  /** `RunBudget::agent_steps`. */
  function AgentSteps(maxAgentSteps: U32): RunBudget {
    RunBudget(PerRun(maxAgentSteps), PerRun(maxAgentSteps), maxAgentSteps)
  }

  function Ceiling(b: RunBudget, c: Charge): U32 {
    match c
    case LlmCall => b.maxLlmCalls
    case ToolCall => b.maxToolCalls
    case AgentStep => b.maxAgentSteps
  }

  function Raised(b: RunBudget, maxAgentSteps: U32): RunBudget {
    AgentSteps(if maxAgentSteps > b.maxAgentSteps then maxAgentSteps else b.maxAgentSteps)
  }

  // ---- Concurrent charging -----------------------------------------------------------------

  type Tid = nat

  /** A charge in progress: the ceiling it read, and the counter value it loaded, if any. */
  datatype Pending = Pending(charge: Charge, max: U32, loaded: Option<U32>)

  /** One number per kind of charge. */
  datatype Counters = Counters(llm: U32, tool: U32, step: U32) {
    function Get(c: Charge): U32 {
      match c case LlmCall => llm case ToolCall => tool case AgentStep => step
    }

    function Bump(c: Charge): Counters {
      if Get(c) == U32_MAX then this
      else match c
           case LlmCall => this.(llm := llm + 1)
           case ToolCall => this.(tool := tool + 1)
           case AgentStep => this.(step := step + 1)
    }
  }

  datatype Meter = Meter(
    budget: RunBudget,
    counters: Counters,
    pending: map<Tid, Pending>,
    grants: Counters)
  {
    function count(c: Charge): U32 { counters.Get(c) }
    function granted(c: Charge): U32 { grants.Get(c) }
  }

  datatype Event =
    | Begin(t: Tid, charge: Charge)
    | Load(t: Tid)
    | Exchange(t: Tid)
    | Raise(maxAgentSteps: U32)

  /** One atomic step. `Load` refuses at the ceiling; `Exchange` succeeds only if the counter
      still has the loaded value, and otherwise loads again. `grants` counts `Ok` results. */
  function Step(m: Meter, ev: Event): Meter {
    match ev
    case Begin(t, c) =>
      if t in m.pending then m else m.(pending := m.pending[t := Pending(c, Ceiling(m.budget, c), None)])
    case Load(t) =>
      if t !in m.pending || m.pending[t].loaded.Some? then m
      else
        var p := m.pending[t];
        if m.count(p.charge) >= p.max then m.(pending := m.pending - {t})
        else m.(pending := m.pending[t := p.(loaded := Some(m.count(p.charge)))])
    case Exchange(t) =>
      if t !in m.pending || m.pending[t].loaded.None? then m
      else
        var p := m.pending[t];
        var n := p.loaded.value;
        if m.count(p.charge) != n then m.(pending := m.pending[t := p.(loaded := None)])
        else m.(counters := m.counters.Bump(p.charge), grants := m.grants.Bump(p.charge),
                pending := m.pending - {t})
    case Raise(v) => m.(budget := Raised(m.budget, v))
  }

  function Exec(m: Meter, evs: seq<Event>): Meter {
    Fold(Step, m, evs)
  }

  function New(b: RunBudget): Meter {
    Meter(b, Counters(0, 0, 0), map[], Counters(0, 0, 0))
  }

  /** A budget that raising the agent steps can only raise. `agent_steps` builds no other. */
  predicate Balanced(b: RunBudget) {
    b.maxLlmCalls <= PerRun(b.maxAgentSteps) && b.maxToolCalls <= PerRun(b.maxAgentSteps)
  }

  lemma AgentStepsBalanced(n: U32)
    ensures Balanced(AgentSteps(n))
  {
  }

  lemma RaiseOnlyRaises(b: RunBudget, v: U32, c: Charge)
    requires Balanced(b)
    ensures Ceiling(b, c) <= Ceiling(Raised(b, v), c) && Balanced(Raised(b, v))
  {
  }

  ghost predicate Under(counters: Counters, b: RunBudget) {
    counters.llm <= b.maxLlmCalls && counters.tool <= b.maxToolCalls && counters.step <= b.maxAgentSteps
  }

  ghost predicate PendingOk(p: Pending, b: RunBudget) {
    p.max <= Ceiling(b, p.charge) && (p.loaded.Some? ==> p.loaded.value < p.max)
  }

  ghost predicate Inv(m: Meter) {
    && Balanced(m.budget) && m.grants == m.counters && Under(m.counters, m.budget)
    && (forall t :: t in m.pending ==> PendingOk(m.pending[t], m.budget))
  }

  lemma StepKeepsInv(m: Meter, ev: Event)
    requires Inv(m)
    ensures Inv(Step(m, ev))
  {
    if ev.Raise? {
      var b' := Raised(m.budget, ev.maxAgentSteps);
      RaiseOnlyRaises(m.budget, ev.maxAgentSteps, LlmCall);
      RaiseOnlyRaises(m.budget, ev.maxAgentSteps, ToolCall);
      forall t | t in m.pending ensures PendingOk(m.pending[t], b') {
        assert PendingOk(m.pending[t], m.budget);
        RaiseOnlyRaises(m.budget, ev.maxAgentSteps, m.pending[t].charge);
      }
    } else if ev.t in m.pending {
      assert PendingOk(m.pending[ev.t], m.budget);
    }
  }

  lemma {:induction false} RunKeepsInv(m: Meter, evs: seq<Event>)
    requires Inv(m)
    ensures Inv(Exec(m, evs))
    decreases |evs|
  {
    if evs != [] {
      StepKeepsInv(m, evs[0]);
      RunKeepsInv(Step(m, evs[0]), evs[1..]);
    }
  }

  // ---- The exact condition -----------------------------------------------------------------

  ghost predicate NeverOvercharged(b: RunBudget) {
    forall evs, c :: var m := Exec(New(b), evs); m.granted(c) == m.count(c) && m.count(c) <= Ceiling(m.budget, c)
  }

  /** In every run the step ceiling is the highest of the first one and those it was raised to; the
      call ceilings are the first ones until a raise, and then what the step ceiling allows. */
  lemma {:induction false} CeilingsOfRun(m: Meter, evs: seq<Event>)
    ensures var b, b' := m.budget, Exec(m, evs).budget;
            && b.maxAgentSteps <= b'.maxAgentSteps
            && (forall i :: 0 <= i < |evs| && evs[i].Raise? ==> evs[i].maxAgentSteps <= b'.maxAgentSteps)
            && (b'.maxAgentSteps == b.maxAgentSteps
                || exists i :: 0 <= i < |evs| && evs[i].Raise? && evs[i].maxAgentSteps == b'.maxAgentSteps)
            && ((forall i :: 0 <= i < |evs| ==> !evs[i].Raise?) ==> b' == b)
            && ((exists i :: 0 <= i < |evs| && evs[i].Raise?) ==>
                  b'.maxLlmCalls == b'.maxToolCalls == PerRun(b'.maxAgentSteps))
    decreases |evs|
  {
    if evs != [] {
      var rest := evs[1..];
      CeilingsOfRun(Step(m, evs[0]), rest);
      hide PerRun;
      forall i | 0 < i < |evs| ensures evs[i] == rest[i - 1] {}
      var b1, b' := Step(m, evs[0]).budget, Exec(m, evs).budget;
      if b'.maxAgentSteps != b1.maxAgentSteps {
        var i :| 0 <= i < |rest| && rest[i].Raise? && rest[i].maxAgentSteps == b'.maxAgentSteps;
        assert evs[i + 1] == rest[i];
      }
      if i :| 0 <= i < |rest| && rest[i].Raise? {
        assert evs[i + 1] == rest[i];
      }
    }
  }

  /** A lone caller can spend a ceiling down to the last charge. */
  lemma {:induction false} SpendAll(b: RunBudget, c: Charge, n: nat) returns (evs: seq<Event>)
    requires n <= Ceiling(b, c)
    ensures var m := Exec(New(b), evs); m.budget == b && m.count(c) == n && m.pending == map[]
  {
    if n == 0 {
      evs := [];
    } else {
      var before := SpendAll(b, c, n - 1);
      var m := Exec(New(b), before);
      var one := [Begin(0, c), Load(0), Exchange(0)];
      assert one[1..] == [Load(0), Exchange(0)] && one[1..][1..] == [Exchange(0)] && one[1..][1..][1..] == [];
      var m1 := Step(m, one[0]);
      var m2 := Step(m1, Load(0));
      assert m2.pending[0] == Pending(c, Ceiling(b, c), Some(n - 1));
      var m3 := Step(m2, Exchange(0));
      assert m3.pending == map[];
      assert Exec(m2, [Exchange(0)]) == m3;
      assert Exec(m1, [Load(0), Exchange(0)]) == m3;
      assert Exec(m, one) == m3;
      FoldConcat(Step, New(b), before, one);
      evs := before + one;
    }
  }

  /** With any number of interleaved charges, grants equal the counter and stay under the
      ceiling, even while it is raised, exactly when the budget is balanced; otherwise "raising"
      it drops a ceiling below what was already granted. */
  lemma NeverOverchargedExactlyWhenBalanced(b: RunBudget)
    ensures NeverOvercharged(b) <==> Balanced(b)
  {
    if Balanced(b) {
      forall evs, c ensures var m := Exec(New(b), evs);
                            m.granted(c) == m.count(c) && m.count(c) <= Ceiling(m.budget, c) {
        RunKeepsInv(New(b), evs);
      }
    } else {
      var c := if b.maxLlmCalls > PerRun(b.maxAgentSteps) then LlmCall else ToolCall;
      var spend := SpendAll(b, c, Ceiling(b, c));
      var m := Exec(New(b), spend);
      var raise := [Raise(0)];
      FoldConcat(Step, New(b), spend, raise);
      assert raise[1..] == [];
      assert Exec(m, raise) == Step(m, Raise(0));
      assert Exec(New(b), spend + raise).count(c) > Ceiling(Exec(New(b), spend + raise).budget, c);
    }
  }

  /** Every budget that `agent_steps` builds is safe, however often it is raised. */
  lemma AgentStepsNeverOvercharged(n: U32)
    ensures NeverOvercharged(AgentSteps(n))
  {
    AgentStepsBalanced(n);
    NeverOverchargedExactlyWhenBalanced(AgentSteps(n));
  }
}
