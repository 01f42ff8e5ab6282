/** Projections of a step log onto phases: the runs of each phase and their time, the
    materialised items, and the current phase by three different scans. */
module PhaseTime {
  import opened Text
  import opened ThreadTypes

  const DEFAULT_INITIAL_PHASE: string := "preflight"

  datatype PhaseRun = PhaseRun(startedAt: int, endedAt: Option<int>, runtimeMs: Option<int>)

  type Runs = map<string, seq<PhaseRun>>

  function DurationMs(start: int, end: int): int {
    if end < start then 0 else end - start
  }

  // ---- Phase runs --------------------------------------------------------------------------

  /** Ends the last run if it is open. */
  function CloseLast(v: seq<PhaseRun>, ts: int): seq<PhaseRun> {
    if v != [] && v[|v| - 1].endedAt.None? then
      var last := v[|v| - 1];
      v[..|v| - 1] + [last.(endedAt := Some(ts), runtimeMs := Some(DurationMs(last.startedAt, ts)))]
    else v
  }

  /** A trimmed name that is not blank. */
  function Named(s: Option<string>): Option<string> {
    if s.Some? && Trim(s.value) != "" then Some(Trim(s.value)) else None
  }

  function Close(runs: Runs, name: Option<string>, ts: int): Runs {
    if name.Some? && name.value in runs then runs[name.value := CloseLast(runs[name.value], ts)] else runs
  }

  function Open(runs: Runs, name: Option<string>, ts: int): Runs {
    if name.None? then runs
    else
      var v := if name.value in runs then runs[name.value] else [];
      runs[name.value := CloseLast(v, ts) + [PhaseRun(ts, None, None)]]
  }

  function AfterStep(runs: Runs, step: ThreadStep): Runs {
    if step.Phase? then Open(Close(runs, Named(step.fromPhase), step.ts), Named(Some(step.phase)), step.ts)
    else runs
  }

  function RunsOf(steps: seq<ThreadStep>): Runs {
    if steps == [] then map[] else AfterStep(RunsOf(steps[..|steps| - 1]), steps[|steps| - 1])
  }

  method PhaseRunsFromSteps(steps: seq<ThreadStep>) returns (runs: Runs)
    ensures runs == RunsOf(steps)
  {
    runs := map[];
    for i := 0 to |steps|
      invariant runs == RunsOf(steps[..i])
    {
      assert steps[..i + 1][..i] == steps[..i];
      var step := steps[i];
      if !step.Phase? { continue; }
      var prev := Named(step.fromPhase);
      if prev.Some? && prev.value in runs {
        var v := runs[prev.value];
        if v != [] && v[|v| - 1].endedAt.None? {
          var last := v[|v| - 1];
          last := last.(endedAt := Some(step.ts), runtimeMs := Some(DurationMs(last.startedAt, step.ts)));
          runs := runs[prev.value := v[..|v| - 1] + [last]];
        } else {
          assert runs[prev.value := v] == runs;
        }
      }
      var ph := Trim(step.phase);
      if ph == "" { continue; }
      var v := if ph in runs then runs[ph] else [];
      if v != [] && v[|v| - 1].endedAt.None? {
        var last := v[|v| - 1];
        v := v[..|v| - 1] + [last.(endedAt := Some(step.ts), runtimeMs := Some(DurationMs(last.startedAt, step.ts)))];
      }
      runs := runs[ph := v + [PhaseRun(step.ts, None, None)]];
    }
    assert steps[..|steps|] == steps;
  }

  function Completed(v: seq<PhaseRun>): int {
    if v == [] then 0
    else Completed(v[..|v| - 1]) + if v[|v| - 1].runtimeMs.Some? then v[|v| - 1].runtimeMs.value else 0
  }

  method TotalCompletedRuntimeMs(v: seq<PhaseRun>) returns (total: int)
    ensures total == Completed(v)
  {
    total := 0;
    for i := 0 to |v|
      invariant total == Completed(v[..i])
    {
      assert v[..i + 1][..i] == v[..i];
      if v[i].runtimeMs.Some? { total := total + v[i].runtimeMs.value; }
    }
    assert v[..|v|] == v;
  }

  // ---- Time over all phases ----------------------------------------------------------------

  ghost function TimeOver(runs: Runs, names: set<string>): int
    requires names <= runs.Keys
  {
    if names == {} then 0
    else
      var n :| n in names;
      Completed(runs[n]) + TimeOver(runs, names - {n})
  }

  ghost function Time(runs: Runs): int {
    TimeOver(runs, runs.Keys)
  }

  lemma {:induction false} TimeOverTake(runs: Runs, names: set<string>, n: string)
    requires names <= runs.Keys && n in names
    ensures TimeOver(runs, names) == Completed(runs[n]) + TimeOver(runs, names - {n})
    decreases names
  {
    var m :| m in names && TimeOver(runs, names) == Completed(runs[m]) + TimeOver(runs, names - {m});
    if m != n {
      TimeOverTake(runs, names - {m}, n);
      TimeOverTake(runs, names - {n}, m);
      assert names - {m} - {n} == names - {n} - {m};
    }
  }

  lemma {:induction false} TimeOverSame(runs: Runs, runs': Runs, names: set<string>)
    requires names <= runs.Keys && names <= runs'.Keys
    requires forall n :: n in names ==> runs[n] == runs'[n]
    ensures TimeOver(runs, names) == TimeOver(runs', names)
    decreases names
  {
    if names != {} {
      var n :| n in names;
      TimeOverTake(runs, names, n);
      TimeOverTake(runs', names, n);
      TimeOverSame(runs, runs', names - {n});
    }
  }

  /** Changing one phase changes the total by that phase. */
  lemma TimeAfterUpdate(runs: Runs, n: string, v: seq<PhaseRun>)
    ensures Time(runs[n := v]) == Time(runs) + Completed(v) - if n in runs then Completed(runs[n]) else 0
  {
    var runs' := runs[n := v];
    TimeOverTake(runs', runs'.Keys, n);
    TimeOverSame(runs, runs', runs.Keys - {n});
    if n in runs {
      TimeOverTake(runs, runs.Keys, n);
      assert runs'.Keys == runs.Keys;
    } else {
      assert runs'.Keys - {n} == runs.Keys - {n} == runs.Keys;
    }
  }

  // ---- Facts about every log ---------------------------------------------------------------

  predicate OpenIn(runs: Runs, n: string) {
    n in runs && runs[n] != [] && runs[n][|runs[n]| - 1].endedAt.None?
  }

  /** Only the last run of a phase may be open, and a closed one carries its own length. */
  ghost predicate WellFormed(v: seq<PhaseRun>) {
    forall i :: 0 <= i < |v| ==>
      match v[i].endedAt
      case None => i == |v| - 1 && v[i].runtimeMs.None?
      case Some(end) => v[i].runtimeMs == Some(DurationMs(v[i].startedAt, end))
  }

  lemma CloseLastWellFormed(v: seq<PhaseRun>, ts: int)
    requires WellFormed(v)
    ensures WellFormed(CloseLast(v, ts)) && |CloseLast(v, ts)| == |v|
    ensures forall i :: 0 <= i < |v| ==> CloseLast(v, ts)[i].endedAt.Some?
    ensures Completed(CloseLast(v, ts)) ==
            Completed(v) + if v != [] && v[|v| - 1].endedAt.None? then DurationMs(v[|v| - 1].startedAt, ts) else 0
  {
    var w := CloseLast(v, ts);
    if v != [] && v[|v| - 1].endedAt.None? {
      assert w[..|w| - 1] == v[..|v| - 1];
    }
  }

  lemma OpensOne(v: seq<PhaseRun>, ts: int)
    requires WellFormed(v)
    ensures WellFormed(CloseLast(v, ts) + [PhaseRun(ts, None, None)])
    ensures Completed(CloseLast(v, ts) + [PhaseRun(ts, None, None)]) == Completed(CloseLast(v, ts))
  {
    CloseLastWellFormed(v, ts);
    var w := CloseLast(v, ts);
    assert (w + [PhaseRun(ts, None, None)])[..|w|] == w;
  }

  ghost predicate AllWellFormed(runs: Runs) {
    forall n :: n in runs ==> WellFormed(runs[n])
  }

  lemma CloseFacts(runs: Runs, from: Option<string>, ts: int)
    requires AllWellFormed(runs)
    ensures AllWellFormed(Close(runs, from, ts))
    ensures forall n :: OpenIn(Close(runs, from, ts), n) <==> OpenIn(runs, n) && from != Some(n)
  {
    if from.Some? && from.value in runs { CloseLastWellFormed(runs[from.value], ts); }
  }

  lemma OpenFacts(runs: Runs, to: Option<string>, ts: int)
    requires AllWellFormed(runs)
    ensures AllWellFormed(Open(runs, to, ts))
    ensures forall n :: OpenIn(Open(runs, to, ts), n) <==> OpenIn(runs, n) || to == Some(n)
  {
    if to.Some? { OpensOne(if to.value in runs then runs[to.value] else [], ts); }
  }

  /** On every log the runs are well formed, and a phase step closes the phase it leaves and
      leaves the one it enters open; no other phase opens or closes. */
  lemma {:induction false} OpenPhases(steps: seq<ThreadStep>, step: ThreadStep)
    ensures AllWellFormed(RunsOf(steps)) && AllWellFormed(RunsOf(steps + [step]))
    ensures step.Phase? ==> forall n :: OpenIn(RunsOf(steps + [step]), n) <==>
              Named(Some(step.phase)) == Some(n) || (OpenIn(RunsOf(steps), n) && Named(step.fromPhase) != Some(n))
    ensures !step.Phase? ==> RunsOf(steps + [step]) == RunsOf(steps)
    decreases |steps|
  {
    assert (steps + [step])[..|steps|] == steps;
    if steps != [] {
      OpenPhases(steps[..|steps| - 1], steps[|steps| - 1]);
      assert steps[..|steps| - 1] + [steps[|steps| - 1]] == steps;
    }
    var runs := RunsOf(steps);
    assert RunsOf(steps + [step]) == AfterStep(runs, step);
    if step.Phase? {
      hide RunsOf, AllWellFormed, OpenIn, Open, Close, Named;
      CloseFacts(runs, Named(step.fromPhase), step.ts);
      OpenFacts(Close(runs, Named(step.fromPhase), step.ts), Named(Some(step.phase)), step.ts);
    }
  }

  // ---- Conservation ------------------------------------------------------------------------

  /** The phase steps, in order. */
  function PhaseSteps(steps: seq<ThreadStep>): (r: seq<ThreadStep>)
    ensures forall i :: 0 <= i < |r| ==> r[i].Phase?
  {
    if steps == [] then []
    else PhaseSteps(steps[..|steps| - 1]) + if steps[|steps| - 1].Phase? then [steps[|steps| - 1]] else []
  }

  /** Every phase step is named, leaves the phase entered before it, and is not earlier. */
  ghost predicate Chained(ps: seq<ThreadStep>) {
    && (forall i :: 0 <= i < |ps| ==> ps[i].Phase? && Named(Some(ps[i].phase)).Some?)
    && forall i :: 0 < i < |ps| ==> Named(ps[i].fromPhase) == Named(Some(ps[i - 1].phase)) && ps[i - 1].ts <= ps[i].ts
  }

  lemma {:induction false} ChainedPrefix(ps: seq<ThreadStep>, step: ThreadStep)
    requires Chained(ps + [step])
    ensures Chained(ps)
  {
    assert forall i :: 0 <= i < |ps| ==> (ps + [step])[i] == ps[i];
  }

  function CurrentPhase(steps: seq<ThreadStep>): Option<string> {
    if steps == [] then None
    else if steps[|steps| - 1].Phase? && Named(Some(steps[|steps| - 1].phase)).Some? then
      Named(Some(steps[|steps| - 1].phase))
    else CurrentPhase(steps[..|steps| - 1])
  }

  /** One run is open; it is the current phase's and began at `last`; the closed runs of all
      phases add up to the time from `first` to `last`. */
  ghost predicate Conserved(runs: Runs, current: Option<string>, first: int, last: int) {
    && current.Some? && OpenIn(runs, current.value)
    && (forall n :: OpenIn(runs, n) ==> n == current.value)
    && runs[current.value][|runs[current.value]| - 1].startedAt == last
    && Time(runs) == last - first
  }

  lemma {:induction false} NoPhaseNoRuns(steps: seq<ThreadStep>)
    requires PhaseSteps(steps) == []
    ensures RunsOf(steps) == map[]
  {
    if steps != [] { NoPhaseNoRuns(steps[..|steps| - 1]); }
  }

  lemma FirstPhaseTime(step: ThreadStep)
    requires step.Phase? && Named(Some(step.phase)).Some?
    ensures Conserved(AfterStep(map[], step), Named(Some(step.phase)), step.ts, step.ts)
  {
    hide Named;
    var n := Named(Some(step.phase)).value;
    var none: Runs := map[];
    assert Close(none, Named(step.fromPhase), step.ts) == none;
    assert CloseLast([], step.ts) + [PhaseRun(step.ts, None, None)] == [PhaseRun(step.ts, None, None)];
    assert AfterStep(none, step) == map[n := [PhaseRun(step.ts, None, None)]];
    TimeAfterUpdate(map[], n, [PhaseRun(step.ts, None, None)]);
    assert Time(map[]) == 0;
  }

  /** Closing the open phase adds exactly the time it was open; opening the next adds none. */
  lemma SwitchTime(runs: Runs, c: string, n: string, ts: int, first: int, last: int)
    requires AllWellFormed(runs) && Conserved(runs, Some(c), first, last) && last <= ts
    ensures Conserved(Open(Close(runs, Some(c), ts), Some(n), ts), Some(n), first, ts)
  {
    var closed := Close(runs, Some(c), ts);
    CloseFacts(runs, Some(c), ts);
    CloseLastWellFormed(runs[c], ts);
    TimeAfterUpdate(runs, c, CloseLast(runs[c], ts));
    var v := if n in closed then closed[n] else [];
    assert WellFormed(v) && !OpenIn(closed, n);
    assert CloseLast(v, ts) == v;
    hide Time;
    OpenFacts(closed, Some(n), ts);
    OpensOne(v, ts);
    TimeAfterUpdate(closed, n, v + [PhaseRun(ts, None, None)]);
  }

  lemma NextPhaseTime(runs: Runs, step: ThreadStep, first: int, last: int)
    requires step.Phase? && Named(Some(step.phase)).Some? && last <= step.ts
    requires AllWellFormed(runs) && Conserved(runs, Named(step.fromPhase), first, last)
    ensures Conserved(AfterStep(runs, step), Named(Some(step.phase)), first, step.ts)
  {
    hide Named, Time, Open, Close;
    SwitchTime(runs, Named(step.fromPhase).value, Named(Some(step.phase)).value, step.ts, first, last);
  }

  /** Phase time is conserved, from the first phase step to the last. */
  lemma {:induction false} TimeIsConserved(steps: seq<ThreadStep>)
    requires Chained(PhaseSteps(steps)) && PhaseSteps(steps) != []
    ensures var ps := PhaseSteps(steps);
            && CurrentPhase(steps) == Named(Some(ps[|ps| - 1].phase))
            && Conserved(RunsOf(steps), CurrentPhase(steps), ps[0].ts, ps[|ps| - 1].ts)
  {
    var before, step := steps[..|steps| - 1], steps[|steps| - 1];
    assert before + [step] == steps;
    var ps, qs := PhaseSteps(steps), PhaseSteps(before);
    assert RunsOf(steps) == AfterStep(RunsOf(before), step);
    hide Trim, Named, Conserved, AfterStep;
    OpenPhases(before, step);
    if !step.Phase? {
      assert ps == qs;
      TimeIsConserved(before);
    } else {
      assert ps == qs + [step];
      assert Named(Some(ps[|ps| - 1].phase)).Some?;
      if qs == [] {
        NoPhaseNoRuns(before);
        FirstPhaseTime(step);
      } else {
        ChainedPrefix(qs, step);
        TimeIsConserved(before);
        assert ps[|qs| - 1] == qs[|qs| - 1] && ps[0] == qs[0];
        assert Named(ps[|qs|].fromPhase) == Named(Some(ps[|qs| - 1].phase)) && ps[|qs| - 1].ts <= ps[|qs|].ts;
        NextPhaseTime(RunsOf(before), step, qs[0].ts, qs[|qs| - 1].ts);
      }
    }
  }

  lemma {:induction false} NoPhaseNoCurrent(steps: seq<ThreadStep>)
    requires PhaseSteps(steps) == []
    ensures CurrentPhase(steps) == None
  {
    if steps != [] { NoPhaseNoCurrent(steps[..|steps| - 1]); }
  }

  /** The next phase step of a chain leaves the phase that is current. */
  lemma {:induction false} ChainLink(before: seq<ThreadStep>, step: ThreadStep)
    requires step.Phase? && Chained(PhaseSteps(before + [step]))
    ensures Chained(PhaseSteps(before)) && Named(Some(step.phase)).Some?
    ensures CurrentPhase(before).Some? ==> Named(step.fromPhase) == CurrentPhase(before)
  {
    assert (before + [step])[..|before|] == before;
    var ps, qs := PhaseSteps(before + [step]), PhaseSteps(before);
    assert ps == qs + [step];
    hide Named, Conserved;
    assert Named(Some(ps[|ps| - 1].phase)).Some?;
    ChainedPrefix(qs, step);
    if qs == [] {
      NoPhaseNoCurrent(before);
    } else {
      TimeIsConserved(before);
      assert ps[|qs| - 1] == qs[|qs| - 1];
      assert Named(ps[|qs|].fromPhase) == Named(Some(ps[|qs| - 1].phase));
    }
  }

  // ---- The current phase, scanned backwards -------------------------------------------------

  /** The last named phase step: nothing named follows it. */
  lemma {:induction false} CurrentPhaseIsLastNamed(steps: seq<ThreadStep>, i: nat)
    requires i < |steps| && steps[i].Phase? && Named(Some(steps[i].phase)).Some?
    requires forall j :: i < j < |steps| && steps[j].Phase? ==> Named(Some(steps[j].phase)).None?
    ensures CurrentPhase(steps) == Named(Some(steps[i].phase))
  {
    if i < |steps| - 1 { CurrentPhaseIsLastNamed(steps[..|steps| - 1], i); }
  }

  lemma {:induction false} CurrentPhaseIsTrimmed(steps: seq<ThreadStep>)
    ensures CurrentPhase(steps).Some? ==> Named(CurrentPhase(steps)) == CurrentPhase(steps)
  {
    if steps != [] {
      CurrentPhaseIsTrimmed(steps[..|steps| - 1]);
      if steps[|steps| - 1].Phase? { TrimIdempotent(steps[|steps| - 1].phase); }
    }
  }

  method CurrentPhaseOfLog(log: ThreadLog) returns (phase: Option<string>)
    ensures phase == CurrentPhase(log.steps)
  {
    var i := |log.steps|;
    assert log.steps[..i] == log.steps;
    while i > 0
      invariant 0 <= i <= |log.steps|
      invariant CurrentPhase(log.steps) == CurrentPhase(log.steps[..i])
    {
      i := i - 1;
      assert log.steps[..i + 1][..i] == log.steps[..i];
      if log.steps[i].Phase? {
        var t := Trim(log.steps[i].phase);
        if t != "" { return Some(t); }
      }
    }
    return None;
  }

  function OrDefault(phase: Option<string>): string {
    if phase.Some? then phase.value else DEFAULT_INITIAL_PHASE
  }

  method DeriveCurrentPhaseFromSteps(steps: seq<ThreadStep>) returns (phase: string)
    ensures phase == OrDefault(CurrentPhase(steps))
  {
    var i := |steps|;
    assert steps[..i] == steps;
    while i > 0
      invariant 0 <= i <= |steps|
      invariant CurrentPhase(steps) == CurrentPhase(steps[..i])
    {
      i := i - 1;
      assert steps[..i + 1][..i] == steps[..i];
      if steps[i].Phase? {
        var t := Trim(steps[i].phase);
        if t != "" { return t; }
      }
    }
    return DEFAULT_INITIAL_PHASE;
  }
}
