/** The materialised view of a log: one item per phase, and the current phase kept forwards. */
module PhaseView {
  import opened Text
  import opened ThreadTypes
  import opened PhaseTime

  datatype Status = Running | Ok | Failed | Blocked

  datatype Item = Item(status: Status, startedAt: Option<int>, finishedAt: Option<int>,
                       runtimeMs: Option<int>, lastError: Option<(string, int)>)

  datatype View = View(suiteId: Option<string>, agentType: Option<string>,
                       currentPhase: Option<string>, items: map<string, Item>)

  const EMPTY := View(None, None, None, map[])

  function PhaseKey(name: string): string { "phase:" + name }

  function PhaseRunning(ts: int): Item { Item(Running, Some(ts), None, None, None) }
  function PhaseFinished(ts: int): Item { Item(Ok, None, Some(ts), None, None) }
  function PhaseBlocked(ts: int): Item { Item(Blocked, Some(ts), None, None, None) }

  function ItemOr(v: View, key: string, other: Item): Item {
    if key in v.items then v.items[key] else other
  }

  /** The runtime is filled in once, when both ends are known. */
  function Timed(e: Item): Item {
    if e.runtimeMs.None? && e.startedAt.Some? && e.finishedAt.Some? then
      e.(runtimeMs := Some(DurationMs(e.startedAt.value, e.finishedAt.value)))
    else e
  }

  function Put(v: View, key: string, e: Item): View {
    v.(items := v.items[key := e])
  }

  function Finish(v: View, prev: Option<string>, ts: int): View {
    if prev.None? then v
    else
      var e := ItemOr(v, PhaseKey(prev.value), PhaseFinished(ts));
      var finished := if e.finishedAt.None? then Some(ts) else e.finishedAt;
      Put(v, PhaseKey(prev.value), Timed(e.(status := Ok, finishedAt := finished)))
  }

  function Start(v: View, name: string, ts: int): View {
    var e := ItemOr(v, PhaseKey(name), PhaseRunning(ts));
    var started := if e.startedAt.None? then Some(ts) else e.startedAt;
    Put(v, PhaseKey(name), e.(status := Running, startedAt := started)).(currentPhase := Some(name))
  }

  function BlockCurrent(v: View, message: string, ts: int): View {
    if v.currentPhase.None? then v
    else
      var key := PhaseKey(v.currentPhase.value);
      Put(v, key, ItemOr(v, key, PhaseBlocked(ts)).(status := Blocked, lastError := Some((message, ts))))
  }

  function Applied(v: View, step: ThreadStep): View {
    match step
    case SwitchSuite(to, _) => if Trim(to) != "" then v.(suiteId := Some(to)) else v
    case SwitchAgent(to, _) => if Trim(to) != "" then v.(agentType := Some(to)) else v
    case Phase(phase, fromPhase, _, _, ts, _) =>
      var ph := Named(Some(phase));
      if ph.None? then v else Start(Finish(v, Named(fromPhase), ts), ph.value, ts)
    case Complete(_, _, _, ok, ts) =>
      var ph := Named(v.currentPhase);
      if ph.None? then v
      else
        var key := PhaseKey(ph.value);
        var status := if ok then Ok else Failed;
        Put(v, key, Timed(ItemOr(v, key, PhaseRunning(ts)).(status := status, finishedAt := Some(ts))))
    case Checkpoint(display, ts) =>
      if v.currentPhase.None? then v
      else
        var key := PhaseKey(v.currentPhase.value);
        var e := ItemOr(v, key, PhaseRunning(ts));
        Put(v, key, if display.Some? then e.(lastError := Some((display.value, ts))) else e)
    case Interrupt(_, prompt, ts) => BlockCurrent(v, prompt, ts)
    case GuardBlock(reason, ts) => BlockCurrent(v, reason, ts)
    case RunLoopStop(reason, ts) => BlockCurrent(v, reason, ts)
    case _ => v
  }

  function ViewOf(steps: seq<ThreadStep>): View {
    if steps == [] then EMPTY else Applied(ViewOf(steps[..|steps| - 1]), steps[|steps| - 1])
  }

  /** `ThreadLogViewCache`. */
  class ViewCache {
    var suiteId: Option<string>
    var agentType: Option<string>
    var currentPhase: Option<string>
    var items: map<string, Item>

    function Value(): View
      reads this
    {
      View(suiteId, agentType, currentPhase, items)
    }

    constructor ()
      ensures Value() == EMPTY
    {
      suiteId, agentType, currentPhase, items := None, None, None, map[];
    }

    method Block(message: string, ts: int)
      modifies this
      ensures Value() == BlockCurrent(old(Value()), message, ts)
    {
      if currentPhase.None? { return; }
      var key := PhaseKey(currentPhase.value);
      var e := if key in items then items[key] else PhaseBlocked(ts);
      items := items[key := e.(status := Blocked, lastError := Some((message, ts)))];
    }

    method EnterPhase(phase: string, fromPhase: Option<string>, ts: int)
      modifies this
      ensures Value() == (var ph := Named(Some(phase));
                          if ph.None? then old(Value())
                          else Start(Finish(old(Value()), Named(fromPhase), ts), ph.value, ts))
    {
      hide Trim;
      var ph := Trim(phase);
      if ph == "" { return; }
      var prev := Named(fromPhase);
      if prev.Some? {
        var key := PhaseKey(prev.value);
        var e := if key in items then items[key] else PhaseFinished(ts);
        e := e.(status := Ok);
        if e.finishedAt.None? { e := e.(finishedAt := Some(ts)); }
        items := items[key := Timed(e)];
      }
      var key := PhaseKey(ph);
      var e := if key in items then items[key] else PhaseRunning(ts);
      e := e.(status := Running);
      if e.startedAt.None? { e := e.(startedAt := Some(ts)); }
      items := items[key := e];
      currentPhase := Some(ph);
    }

    method ApplyStep(step: ThreadStep)
      modifies this
      ensures Value() == Applied(old(Value()), step)
    {
      hide Trim;
      match step
      case SwitchSuite(to, _) => if Trim(to) != "" { suiteId := Some(to); }
      case SwitchAgent(to, _) => if Trim(to) != "" { agentType := Some(to); }
      case Phase(phase, fromPhase, _, _, ts, _) => EnterPhase(phase, fromPhase, ts);
      case Complete(_, _, _, ok, ts) =>
        var ph := Named(currentPhase);
        if ph.None? { return; }
        var key := PhaseKey(ph.value);
        var e := if key in items then items[key] else PhaseRunning(ts);
        e := e.(status := if ok then Ok else Failed, finishedAt := Some(ts));
        items := items[key := Timed(e)];
      case Checkpoint(display, ts) =>
        if currentPhase.None? { return; }
        var key := PhaseKey(currentPhase.value);
        var e := if key in items then items[key] else PhaseRunning(ts);
        if display.Some? { e := e.(lastError := Some((display.value, ts))); }
        items := items[key := e];
      case Interrupt(_, prompt, ts) => Block(prompt, ts);
      case GuardBlock(reason, ts) => Block(reason, ts);
      case RunLoopStop(reason, ts) => Block(reason, ts);
      case _ =>
    }
  }

  function RuntimeOf(e: Item): int {
    if e.runtimeMs.Some? then e.runtimeMs.value else 0
  }

  ghost function TimeShown(items: map<string, Item>, keys: set<string>): int
    requires keys <= items.Keys
  {
    if keys == {} then 0
    else
      var k :| k in keys;
      RuntimeOf(items[k]) + TimeShown(items, keys - {k})
  }

  lemma {:induction false} TimeShownTake(items: map<string, Item>, keys: set<string>, k: string)
    requires keys <= items.Keys && k in keys
    ensures TimeShown(items, keys) == RuntimeOf(items[k]) + TimeShown(items, keys - {k})
    decreases keys
  {
    var m :| m in keys && TimeShown(items, keys) == RuntimeOf(items[m]) + TimeShown(items, keys - {m});
    if m != k {
      TimeShownTake(items, keys - {m}, k);
      TimeShownTake(items, keys - {k}, m);
      assert keys - {m} - {k} == keys - {k} - {m};
    }
  }

  method Materialize(log: ThreadLog) returns (st: ViewCache, totalRuntimeMs: int)
    ensures fresh(st) && st.Value() == ViewOf(log.steps)
    ensures totalRuntimeMs == TimeShown(st.items, st.items.Keys)
  {
    st := new ViewCache();
    for i := 0 to |log.steps|
      invariant fresh(st) && st.Value() == ViewOf(log.steps[..i])
    {
      assert log.steps[..i + 1][..i] == log.steps[..i];
      st.ApplyStep(log.steps[i]);
    }
    assert log.steps[..|log.steps|] == log.steps;
    assert st.Value() == ViewOf(log.steps);
    totalRuntimeMs := 0;
    var todo := st.items.Keys;
    while todo != {}
      invariant fresh(st) && st.Value() == ViewOf(log.steps)
      invariant todo <= st.items.Keys
      invariant totalRuntimeMs + TimeShown(st.items, todo) == TimeShown(st.items, st.items.Keys)
      decreases todo
    {
      var k :| k in todo;
      TimeShownTake(st.items, todo, k);
      var e := st.items[k];
      if e.runtimeMs.Some? { totalRuntimeMs := totalRuntimeMs + e.runtimeMs.value; }
      todo := todo - {k};
    }
  }

  // ---- Forwards and backwards ---------------------------------------------------------------

  /** On every log the forward fold and the backward scans agree on the current phase, and the
      view has an item for it. */
  lemma {:induction false} ForwardIsBackward(steps: seq<ThreadStep>)
    ensures ViewOf(steps).currentPhase == CurrentPhase(steps)
    ensures CurrentPhase(steps).Some? ==> PhaseKey(CurrentPhase(steps).value) in ViewOf(steps).items
  {
    if steps != [] {
      ForwardIsBackward(steps[..|steps| - 1]);
      hide Trim;
    }
  }

  /** The last name that switches to something, of the suite or of the agent. */
  function LastSwitch(steps: seq<ThreadStep>, ofSuite: bool): Option<string> {
    if steps == [] then None
    else
      match steps[|steps| - 1]
      case SwitchSuite(to, _) =>
        if ofSuite && Trim(to) != "" then Some(to) else LastSwitch(steps[..|steps| - 1], ofSuite)
      case SwitchAgent(to, _) =>
        if !ofSuite && Trim(to) != "" then Some(to) else LastSwitch(steps[..|steps| - 1], ofSuite)
      case _ => LastSwitch(steps[..|steps| - 1], ofSuite)
  }

  /** On every log the view's suite and agent are those switched to last, blank names ignored. */
  lemma {:induction false} SwitchesAreLast(steps: seq<ThreadStep>)
    ensures ViewOf(steps).suiteId == LastSwitch(steps, true)
    ensures ViewOf(steps).agentType == LastSwitch(steps, false)
  {
    if steps != [] {
      SwitchesAreLast(steps[..|steps| - 1]);
      hide Trim;
    }
  }

  lemma SameKey(a: string, b: string)
    requires PhaseKey(a) == PhaseKey(b)
    ensures a == b
  {
    assert PhaseKey(a)[6..] == a && PhaseKey(b)[6..] == b;
  }

  ghost predicate Left(items: map<string, Item>, current: Option<string>) {
    forall n: string :: PhaseKey(n) in items && current != Some(n) ==>
      items[PhaseKey(n)].status == Ok && items[PhaseKey(n)].finishedAt.Some?
  }

  lemma PutKeepsLeft(items: map<string, Item>, current: Option<string>, name: string, e: Item)
    requires Left(items, current)
    requires current != Some(name) ==> e.status == Ok && e.finishedAt.Some?
    ensures Left(items[PhaseKey(name) := e], current)
  {
    forall m: string | PhaseKey(m) == PhaseKey(name) ensures m == name { SameKey(m, name); }
    hide PhaseKey;
  }

  lemma LeftAfterPhase(v: View, from: Option<string>, to: string, ts: int)
    requires Left(v.items, v.currentPhase) && (v.currentPhase.Some? ==> from == v.currentPhase)
    ensures Left(Start(Finish(v, from, ts), to, ts).items, Some(to))
  {
    var f := Finish(v, from, ts);
    if from.Some? {
      PutKeepsLeft(v.items, v.currentPhase, from.value, f.items[PhaseKey(from.value)]);
    }
    assert Left(f.items, None);
    assert Left(f.items, Some(to));
    PutKeepsLeft(f.items, Some(to), to, Start(f, to, ts).items[PhaseKey(to)]);
  }

  lemma LeftAfter(v: View, step: ThreadStep)
    requires Left(v.items, v.currentPhase)
    requires v.currentPhase.Some? ==> Named(v.currentPhase) == v.currentPhase
    requires step.Phase? ==>
               Named(Some(step.phase)).Some? && (v.currentPhase.Some? ==> Named(step.fromPhase) == v.currentPhase)
    ensures Left(Applied(v, step).items, Applied(v, step).currentPhase)
  {
    hide Trim, Left;
    var after := Applied(v, step);
    if step.Phase? {
      LeftAfterPhase(v, Named(step.fromPhase), Named(Some(step.phase)).value, step.ts);
    } else if after.items != v.items {
      var name := v.currentPhase.value;
      PutKeepsLeft(v.items, v.currentPhase, name, after.items[PhaseKey(name)]);
    }
  }

  /** When every phase step names the phase it leaves, every phase but the current one is
      finished and successful in the view, whatever else happened in the meantime. */
  lemma {:induction false} OnlyCurrentIsUnfinished(steps: seq<ThreadStep>)
    requires Chained(PhaseSteps(steps))
    ensures Left(ViewOf(steps).items, CurrentPhase(steps))
  {
    if steps != [] {
      var before, step := steps[..|steps| - 1], steps[|steps| - 1];
      assert before + [step] == steps;
      assert ViewOf(steps) == Applied(ViewOf(before), step);
      ForwardIsBackward(before);
      ForwardIsBackward(steps);
      CurrentPhaseIsTrimmed(before);
      hide ViewOf, Applied, Left, CurrentPhase, Named;
      if step.Phase? { ChainLink(before, step); } else { assert PhaseSteps(steps) == PhaseSteps(before); }
      OnlyCurrentIsUnfinished(before);
      LeftAfter(ViewOf(before), step);
    }
  }

  // ---- The time that the view shows ---------------------------------------------------------

  ghost function Shown(items: map<string, Item>): int {
    TimeShown(items, items.Keys)
  }

  lemma {:induction false} ShownSame(items: map<string, Item>, items': map<string, Item>, keys: set<string>)
    requires keys <= items.Keys && keys <= items'.Keys
    requires forall k :: k in keys ==> RuntimeOf(items[k]) == RuntimeOf(items'[k])
    ensures TimeShown(items, keys) == TimeShown(items', keys)
    decreases keys
  {
    if keys != {} {
      var k :| k in keys;
      TimeShownTake(items, keys, k);
      TimeShownTake(items', keys, k);
      ShownSame(items, items', keys - {k});
    }
  }

  lemma ShownAfterPut(items: map<string, Item>, key: string, e: Item)
    ensures Shown(items[key := e]) == Shown(items) + RuntimeOf(e) - if key in items then RuntimeOf(items[key]) else 0
  {
    var items' := items[key := e];
    TimeShownTake(items', items'.Keys, key);
    ShownSame(items, items', items.Keys - {key});
    if key in items {
      TimeShownTake(items, items.Keys, key);
      assert items'.Keys == items.Keys;
    } else {
      assert items'.Keys - {key} == items.Keys - {key} == items.Keys;
    }
  }

  /** `mark` is the last moment that the items have been told of. Only the current phase may be
      counting, and what is shown was over before it began. */
  ghost predicate ItemTimely(v: View, n: string, first: int, mark: int) {
    PhaseKey(n) in v.items ==>
      var e := v.items[PhaseKey(n)];
      && (e.startedAt.Some? ==> e.startedAt.value <= mark)
      && (e.finishedAt.Some? ==> e.finishedAt.value <= mark)
      && (e.runtimeMs.None? && e.startedAt.Some? ==>
            v.currentPhase == Some(n) && Shown(v.items) <= e.startedAt.value - first)
  }

  ghost predicate Timely(v: View, first: int, mark: int) {
    Shown(v.items) <= mark - first && forall n: string :: ItemTimely(v, n, first, mark)
  }

  lemma FinishTimely(v: View, prev: Option<string>, ts: int, first: int, mark: int)
    requires Timely(v, first, mark) && mark <= ts && (v.currentPhase.Some? ==> prev == v.currentPhase)
    ensures var f := Finish(v, prev, ts); Timely(f.(currentPhase := None), first, ts)
  {
    var f := Finish(v, prev, ts).(currentPhase := None);
    if prev.Some? {
      var key := PhaseKey(prev.value);
      assert ItemTimely(v, prev.value, first, mark);
      ShownAfterPut(v.items, key, f.items[key]);
      hide Shown, PhaseKey;
      assert Shown(f.items) <= ts - first;
    }
    hide Shown;
    forall n: string ensures ItemTimely(f, n, first, ts) {
      assert ItemTimely(v, n, first, mark);
      if prev.Some? && PhaseKey(n) == PhaseKey(prev.value) { SameKey(n, prev.value); }
    }
  }

  lemma StartTimely(v: View, to: string, ts: int, first: int)
    requires Timely(v.(currentPhase := None), first, ts)
    ensures Timely(Start(v, to, ts), first, ts)
  {
    var s := Start(v, to, ts);
    assert ItemTimely(v.(currentPhase := None), to, first, ts);
    ShownAfterPut(v.items, PhaseKey(to), s.items[PhaseKey(to)]);
    hide Shown;
    forall n: string ensures ItemTimely(s, n, first, ts) {
      assert ItemTimely(v.(currentPhase := None), n, first, ts);
      if PhaseKey(n) == PhaseKey(to) { SameKey(n, to); }
    }
  }

  /** What a step that is not a phase does to the current item. */
  lemma OtherTimely(v: View, step: ThreadStep, first: int, mark: int)
    requires Timely(v, first, mark) && !step.Phase? && (step.Complete? ==> mark <= step.ts)
    requires v.currentPhase.Some? ==> PhaseKey(v.currentPhase.value) in v.items && Named(v.currentPhase) == v.currentPhase
    ensures Timely(Applied(v, step), first, if step.Complete? then step.ts else mark)
  {
    hide Trim;
    var after, mark' := Applied(v, step), if step.Complete? then step.ts else mark;
    if after.items == v.items {
      hide Shown, Applied;
      forall n: string ensures ItemTimely(after, n, first, mark') { assert ItemTimely(v, n, first, mark); }
    } else {
      var c := v.currentPhase.value;
      var key := PhaseKey(c);
      assert ItemTimely(v, c, first, mark);
      ShownAfterPut(v.items, key, after.items[key]);
      assert after.items == v.items[key := after.items[key]] && after.currentPhase == v.currentPhase;
      var e, e' := v.items[key], after.items[key];
      assert e'.startedAt == e.startedAt;
      assert !step.Complete? ==> e'.finishedAt == e.finishedAt && e'.runtimeMs == e.runtimeMs;
      assert step.Complete? ==> e'.finishedAt == Some(step.ts) && (e.startedAt.Some? ==> e'.runtimeMs.Some?);
      hide Shown, Applied;
      forall n: string ensures ItemTimely(after, n, first, mark') {
        assert ItemTimely(v, n, first, mark);
        if PhaseKey(n) == key { SameKey(n, c); }
      }
    }
  }

  /** The time of the last phase or completion step, from `first` on. */
  function Mark(steps: seq<ThreadStep>, first: int): int {
    if steps == [] then first
    else if steps[|steps| - 1].Phase? || steps[|steps| - 1].Complete? then steps[|steps| - 1].ts
    else Mark(steps[..|steps| - 1], first)
  }

  ghost predicate InOrder(steps: seq<ThreadStep>) {
    forall i, j :: 0 <= i < j < |steps| ==> steps[i].ts <= steps[j].ts
  }

  lemma {:induction false} MarkIsPast(steps: seq<ThreadStep>, first: int, ts: int)
    requires first <= ts && forall i :: 0 <= i < |steps| ==> steps[i].ts <= ts
    ensures Mark(steps, first) <= ts
  {
    if steps != [] { MarkIsPast(steps[..|steps| - 1], first, ts); }
  }

  lemma {:induction false} NoPhaseNoItems(steps: seq<ThreadStep>)
    requires PhaseSteps(steps) == []
    ensures ViewOf(steps).items == map[] && ViewOf(steps).currentPhase == None
  {
    if steps != [] {
      NoPhaseNoItems(steps[..|steps| - 1]);
      hide Trim;
    }
  }

  lemma {:induction false} FirstPhaseIsPast(steps: seq<ThreadStep>)
    requires PhaseSteps(steps) != []
    ensures exists i :: 0 <= i < |steps| && PhaseSteps(steps)[0] == steps[i]
  {
    var before := steps[..|steps| - 1];
    if PhaseSteps(before) != [] {
      FirstPhaseIsPast(before);
      var i :| 0 <= i < |before| && PhaseSteps(before)[0] == before[i];
      assert steps[i] == before[i];
    } else {
      assert PhaseSteps(steps)[0] == steps[|steps| - 1];
    }
  }

  lemma PhaseTimely(v: View, step: ThreadStep, first: int, mark: int)
    requires step.Phase? && Named(Some(step.phase)).Some? && Timely(v, first, mark) && mark <= step.ts
    requires v.currentPhase.Some? ==> Named(step.fromPhase) == v.currentPhase
    ensures Timely(Applied(v, step), first, step.ts)
  {
    hide Timely, Named, Finish, Start;
    var from, to := Named(step.fromPhase), Named(Some(step.phase)).value;
    FinishTimely(v, from, step.ts, first, mark);
    StartTimely(Finish(v, from, step.ts), to, step.ts, first);
  }

  /** The view never shows more time than lies between the first phase step and the last phase or
      completion step, although phases may be entered again and completed more than once. */
  lemma {:induction false} ShownTimeIsElapsed(steps: seq<ThreadStep>)
    requires Chained(PhaseSteps(steps)) && PhaseSteps(steps) != [] && InOrder(steps)
    ensures var first := PhaseSteps(steps)[0].ts; Timely(ViewOf(steps), first, Mark(steps, first))
  {
    var before, step := steps[..|steps| - 1], steps[|steps| - 1];
    assert before + [step] == steps && InOrder(before);
    assert ViewOf(steps) == Applied(ViewOf(before), step);
    var first := PhaseSteps(steps)[0].ts;
    var v := ViewOf(before);
    if PhaseSteps(before) == [] {
      NoPhaseNoItems(before);
      ChainLink(before, step);
      assert Shown(map[]) == 0;
      assert Timely(v, first, first);
      PhaseTimely(v, step, first, first);
    } else {
      FirstPhaseIsPast(before);
      ForwardIsBackward(before);
      CurrentPhaseIsTrimmed(before);
      if step.Phase? { ChainLink(before, step); } else { assert PhaseSteps(steps) == PhaseSteps(before); }
      assert first == PhaseSteps(before)[0].ts;
      MarkIsPast(before, first, step.ts);
      hide Timely, Applied, ViewOf, Chained, CurrentPhase, Named, InOrder;
      ShownTimeIsElapsed(before);
      if step.Phase? {
        PhaseTimely(v, step, first, Mark(before, first));
      } else {
        OtherTimely(v, step, first, Mark(before, first));
      }
    }
  }

  lemma {:induction false} MarkOfPhases(steps: seq<ThreadStep>, first: int)
    requires PhaseSteps(steps) != [] && forall i :: 0 <= i < |steps| ==> !steps[i].Complete?
    ensures Mark(steps, first) == PhaseSteps(steps)[|PhaseSteps(steps)| - 1].ts
  {
    var before := steps[..|steps| - 1];
    if !steps[|steps| - 1].Phase? {
      assert PhaseSteps(steps) == PhaseSteps(before);
      MarkOfPhases(before, first);
    }
  }

  /** Before anything completes, the view shows no more time than the phase runs account for. */
  lemma {:induction false} ShownTimeWithinRuns(steps: seq<ThreadStep>)
    requires Chained(PhaseSteps(steps)) && PhaseSteps(steps) != [] && InOrder(steps)
    requires forall i :: 0 <= i < |steps| ==> !steps[i].Complete?
    ensures Shown(ViewOf(steps).items) <= Time(RunsOf(steps))
  {
    ShownTimeIsElapsed(steps);
    TimeIsConserved(steps);
    MarkOfPhases(steps, PhaseSteps(steps)[0].ts);
  }

  // ---- Exactly what the view shows ----------------------------------------------------------

  /** The last step that decides how the current phase stands. */
  function LastDecision(steps: seq<ThreadStep>): Option<ThreadStep> {
    if steps == [] then None
    else
      var step := steps[|steps| - 1];
      if (step.Phase? && Named(Some(step.phase)).Some?) || step.Complete?
         || step.Interrupt? || step.GuardBlock? || step.RunLoopStop?
      then Some(step) else LastDecision(steps[..|steps| - 1])
  }

  /** What was last said about the current phase since it was entered. */
  function LastMessage(steps: seq<ThreadStep>): Option<(string, int)> {
    if steps == [] then None
    else
      match steps[|steps| - 1]
      case Interrupt(_, prompt, ts) => Some((prompt, ts))
      case GuardBlock(reason, ts) => Some((reason, ts))
      case RunLoopStop(reason, ts) => Some((reason, ts))
      case Checkpoint(Some(display), ts) => Some((display, ts))
      case Phase(phase, _, _, _, _, _) =>
        if Named(Some(phase)).Some? then None else LastMessage(steps[..|steps| - 1])
      case _ => LastMessage(steps[..|steps| - 1])
  }

  /** Scanned backwards: the current phase runs if nothing decided it since it was entered; after
      a completion it stands as that says, finished then; after anything that stops it, it is
      blocked. What was last said about it is its last error. */
  lemma {:induction false} CurrentStandsAsLastDecided(steps: seq<ThreadStep>)
    requires CurrentPhase(steps).Some?
    ensures PhaseKey(CurrentPhase(steps).value) in ViewOf(steps).items && LastDecision(steps).Some?
    ensures var e := ViewOf(steps).items[PhaseKey(CurrentPhase(steps).value)];
            match LastDecision(steps).value
            case Phase(_, _, _, _, _, _) => e.status == Running && e.startedAt.Some?
            case Complete(_, _, _, ok, ts) => e.status == (if ok then Ok else Failed) && e.finishedAt == Some(ts)
            case Interrupt(_, _, _) => e.status == Blocked
            case GuardBlock(_, _) => e.status == Blocked
            case RunLoopStop(_, _) => e.status == Blocked
            case _ => false
    ensures LastMessage(steps).Some? ==>
              ViewOf(steps).items[PhaseKey(CurrentPhase(steps).value)].lastError == LastMessage(steps)
  {
    var before, step := steps[..|steps| - 1], steps[|steps| - 1];
    ForwardIsBackward(steps);
    ForwardIsBackward(before);
    CurrentPhaseIsTrimmed(before);
    hide Trim, Named, PhaseKey;
    if !(step.Phase? && Named(Some(step.phase)).Some?) {
      CurrentStandsAsLastDecided(before);
    }
  }

  /** The last named phase has been entered and nothing has completed since. */
  predicate Counting(steps: seq<ThreadStep>) {
    && steps != []
    && var step := steps[|steps| - 1];
       (step.Phase? && Named(Some(step.phase)).Some?) || (!step.Complete? && Counting(steps[..|steps| - 1]))
  }

  function EnteredAt(steps: seq<ThreadStep>): int {
    if steps == [] then 0
    else if steps[|steps| - 1].Phase? && Named(Some(steps[|steps| - 1].phase)).Some? then steps[|steps| - 1].ts
    else EnteredAt(steps[..|steps| - 1])
  }

  /** The time from each entry to the first completion or the next entry after it. */
  function Worked(steps: seq<ThreadStep>): int {
    if steps == [] then 0
    else
      var before, step := steps[..|steps| - 1], steps[|steps| - 1];
      Worked(before)
      + if Counting(before) && (step.Phase? || step.Complete?) then DurationMs(EnteredAt(before), step.ts) else 0
  }

  /** The name is entered by one of the phase steps, or left by the first. */
  ghost predicate Met(ps: seq<ThreadStep>, n: string) {
    exists i :: 0 <= i < |ps| && ps[i].Phase?
                && (Named(Some(ps[i].phase)) == Some(n) || (i == 0 && Named(ps[i].fromPhase) == Some(n)))
  }

  /** No phase is entered that was entered, or left, before. */
  ghost predicate EnteredOnce(ps: seq<ThreadStep>) {
    && (forall i, j :: 0 <= i < j < |ps| && ps[i].Phase? && ps[j].Phase? ==>
                         Named(Some(ps[i].phase)) != Named(Some(ps[j].phase)))
    && forall i :: 0 <= i < |ps| && ps[0].Phase? && ps[i].Phase? && Named(ps[0].fromPhase).Some? ==>
                     Named(ps[0].fromPhase) != Named(Some(ps[i].phase))
  }

  ghost predicate ShowsExactly(v: View, steps: seq<ThreadStep>) {
    && Shown(v.items) == Worked(steps)
    && (forall n: string :: PhaseKey(n) in v.items ==> Met(PhaseSteps(steps), n))
    && (v.currentPhase.None? ==> !Counting(steps))
    && (v.currentPhase.Some? ==>
          && PhaseKey(v.currentPhase.value) in v.items
          && var e := v.items[PhaseKey(v.currentPhase.value)];
             if Counting(steps) then
               e.startedAt == Some(EnteredAt(steps)) && e.finishedAt.None? && e.runtimeMs.None?
             else e.runtimeMs.Some?)
  }

  /** Leaving a phase for one without an item adds the time of the one that is left. */
  lemma LeaveAndEnter(v: View, from: Option<string>, to: string, ts: int)
    requires from != Some(to) && PhaseKey(to) !in v.items
    ensures var f := Finish(v, from, ts);
            var s := Start(f, to, ts);
            && PhaseKey(to) in s.items && s.items[PhaseKey(to)] == PhaseRunning(ts)
            && s.items.Keys == v.items.Keys + {PhaseKey(to)} + (if from.Some? then {PhaseKey(from.value)} else {})
            && Shown(s.items) == Shown(v.items)
               + if from.None? then 0
                 else RuntimeOf(f.items[PhaseKey(from.value)])
                      - if PhaseKey(from.value) in v.items then RuntimeOf(v.items[PhaseKey(from.value)]) else 0
  {
    var f := Finish(v, from, ts);
    if from.Some? {
      if PhaseKey(from.value) == PhaseKey(to) { SameKey(from.value, to); }
      ShownAfterPut(v.items, PhaseKey(from.value), f.items[PhaseKey(from.value)]);
    }
    ShownAfterPut(f.items, PhaseKey(to), PhaseRunning(ts));
    hide Shown;
  }

  /** What the phase that is left adds to the time shown. */
  lemma LeavingAdds(v: View, before: seq<ThreadStep>, from: Option<string>, ts: int)
    requires ShowsExactly(v, before)
    requires if v.currentPhase.Some? then from == v.currentPhase else forall n: string :: PhaseKey(n) !in v.items
    ensures from.Some? ==>
              RuntimeOf(Finish(v, from, ts).items[PhaseKey(from.value)])
              == (if PhaseKey(from.value) in v.items then RuntimeOf(v.items[PhaseKey(from.value)]) else 0)
                 + if Counting(before) then DurationMs(EnteredAt(before), ts) else 0
    ensures from.None? ==> !Counting(before)
  {
    hide Shown, PhaseKey, Counting;
  }

  lemma NothingMet(n: string)
    ensures !Met([], n)
  {
  }

  lemma NewlyMet(qs: seq<ThreadStep>, step: ThreadStep, n: string)
    requires step.Phase?
    ensures Met(qs + [step], n) <==>
            Met(qs, n) || Named(Some(step.phase)) == Some(n) || (qs == [] && Named(step.fromPhase) == Some(n))
  {
    hide Named;
    var ps := qs + [step];
    assert ps[|qs|] == step;
    if Met(qs, n) {
      var i :| 0 <= i < |qs| && qs[i].Phase?
               && (Named(Some(qs[i].phase)) == Some(n) || (i == 0 && Named(qs[i].fromPhase) == Some(n)));
      assert ps[i] == qs[i];
    }
    if Met(ps, n) {
      var i :| 0 <= i < |ps| && ps[i].Phase?
               && (Named(Some(ps[i].phase)) == Some(n) || (i == 0 && Named(ps[i].fromPhase) == Some(n)));
      if i < |qs| { assert qs[i] == ps[i]; }
    }
  }

  lemma EnteredIsNew(qs: seq<ThreadStep>, step: ThreadStep)
    requires step.Phase? && EnteredOnce(qs + [step]) && Named(Some(step.phase)).Some?
    ensures !Met(qs, Named(Some(step.phase)).value) && EnteredOnce(qs)
    ensures qs == [] ==> Named(step.fromPhase) != Named(Some(step.phase))
  {
    hide Named;
    var ps := qs + [step];
    assert ps[|qs|] == step && forall i :: 0 <= i < |qs| ==> ps[i] == qs[i];
    if qs != [] { assert ps[0] == qs[0]; } else { assert ps[0] == step; }
  }

  lemma PhaseShows(v: View, before: seq<ThreadStep>, step: ThreadStep)
    requires step.Phase? && Named(Some(step.phase)).Some? && ShowsExactly(v, before)
    requires if v.currentPhase.Some? then Named(step.fromPhase) == v.currentPhase else PhaseSteps(before) == []
    requires EnteredOnce(PhaseSteps(before) + [step])
    ensures ShowsExactly(Applied(v, step), before + [step])
  {
    var steps, from, to := before + [step], Named(step.fromPhase), Named(Some(step.phase)).value;
    var qs := PhaseSteps(before);
    assert steps[..|before|] == before && PhaseSteps(steps) == qs + [step];
    EnteredIsNew(qs, step);
    var after := Applied(v, step);
    assert after == Start(Finish(v, from, step.ts), to, step.ts);
    assert Worked(steps) == Worked(before) + if Counting(before) then DurationMs(EnteredAt(before), step.ts) else 0;
    assert Counting(steps) && EnteredAt(steps) == step.ts;
    hide Named, Shown, PhaseKey, Worked, Counting, EnteredAt, Met, EnteredOnce, PhaseSteps, Applied;
    if v.currentPhase.None? {
      forall n: string ensures PhaseKey(n) !in v.items { NothingMet(n); }
    }
    LeavingAdds(v, before, from, step.ts);
    LeaveAndEnter(v, from, to, step.ts);
    hide Finish;
    forall n: string | PhaseKey(n) in after.items ensures Met(qs + [step], n) {
      NewlyMet(qs, step, n);
      if PhaseKey(n) == PhaseKey(to) { SameKey(n, to); }
      if from.Some? && PhaseKey(n) == PhaseKey(from.value) { SameKey(n, from.value); }
    }
  }

  lemma OtherShows(v: View, before: seq<ThreadStep>, step: ThreadStep)
    requires !step.Phase? && ShowsExactly(v, before)
    requires v.currentPhase.Some? ==> Named(v.currentPhase) == v.currentPhase
    ensures ShowsExactly(Applied(v, step), before + [step])
  {
    var steps, after := before + [step], Applied(v, step);
    assert steps[..|before|] == before && PhaseSteps(steps) == PhaseSteps(before);
    assert after.currentPhase == v.currentPhase && EnteredAt(steps) == EnteredAt(before);
    assert Counting(steps) <==> Counting(before) && !step.Complete?;
    assert Worked(steps) == Worked(before)
        + if Counting(before) && step.Complete? then DurationMs(EnteredAt(before), step.ts) else 0;
    hide Trim, Named, Met, PhaseSteps, Worked, Counting, EnteredAt;
    if v.currentPhase.Some? {
      var key := PhaseKey(v.currentPhase.value);
      var e := v.items[key];
      assert after.items.Keys == v.items.Keys && key in after.items;
      var e' := after.items[key];
      assert after.items == v.items[key := e'];
      assert !step.Complete? ==> e'.startedAt == e.startedAt && e'.finishedAt == e.finishedAt && e'.runtimeMs == e.runtimeMs;
      assert step.Complete? ==>
          e'.runtimeMs == Timed(e.(status := if step.ok then Ok else Failed, finishedAt := Some(step.ts))).runtimeMs;
      ShownAfterPut(v.items, key, e');
      hide Shown, PhaseKey, Applied;
      assert Shown(after.items) == Shown(v.items) + RuntimeOf(e') - RuntimeOf(e);
    }
  }

  /** Where no phase is entered twice, the view shows exactly the time from each entry to the first
      completion or the next entry after it; the present phase shows none until it completes. */
  lemma {:induction false} ShownTimeIsWorked(steps: seq<ThreadStep>)
    requires Chained(PhaseSteps(steps)) && EnteredOnce(PhaseSteps(steps))
    ensures ShowsExactly(ViewOf(steps), steps) && Shown(ViewOf(steps).items) == Worked(steps)
  {
    if steps == [] {
      assert Shown(map[]) == 0;
    } else {
      var before, step := steps[..|steps| - 1], steps[|steps| - 1];
      assert before + [step] == steps;
      assert ViewOf(steps) == Applied(ViewOf(before), step);
      ForwardIsBackward(before);
      CurrentPhaseIsTrimmed(before);
      if step.Phase? {
        assert PhaseSteps(steps) == PhaseSteps(before) + [step];
        ChainLink(before, step);
        EnteredIsNew(PhaseSteps(before), step);
        if PhaseSteps(before) != [] { TimeIsConserved(before); }
        hide ShowsExactly, Applied, ViewOf, Named, EnteredOnce, Chained;
        ShownTimeIsWorked(before);
        PhaseShows(ViewOf(before), before, step);
      } else {
        assert PhaseSteps(steps) == PhaseSteps(before);
        hide ShowsExactly, Applied, ViewOf, Named, EnteredOnce, Chained;
        ShownTimeIsWorked(before);
        OtherShows(ViewOf(before), before, step);
      }
    }
  }

  lemma {:induction false} NoPhaseNoCounting(steps: seq<ThreadStep>)
    requires PhaseSteps(steps) == []
    ensures !Counting(steps) && Worked(steps) == 0
  {
    if steps != [] { NoPhaseNoCounting(steps[..|steps| - 1]); }
  }

  lemma InChainOrder(qs: seq<ThreadStep>, step: ThreadStep)
    requires Chained(qs + [step]) && qs != []
    ensures qs[|qs| - 1].ts <= step.ts
  {
    assert (qs + [step])[|qs| - 1] == qs[|qs| - 1] && (qs + [step])[|qs|] == step;
  }

  lemma {:induction false} WorkedIsElapsed(steps: seq<ThreadStep>)
    requires Chained(PhaseSteps(steps)) && PhaseSteps(steps) != []
    requires forall i :: 0 <= i < |steps| ==> !steps[i].Complete?
    ensures var ps := PhaseSteps(steps);
            Worked(steps) == ps[|ps| - 1].ts - ps[0].ts && Counting(steps) && EnteredAt(steps) == ps[|ps| - 1].ts
  {
    var before, step := steps[..|steps| - 1], steps[|steps| - 1];
    assert before + [step] == steps;
    var ps, qs := PhaseSteps(steps), PhaseSteps(before);
    hide Named, Chained;
    if step.Phase? {
      ChainLink(before, step);
      if qs == [] {
        NoPhaseNoCounting(before);
      } else {
        WorkedIsElapsed(before);
        InChainOrder(qs, step);
      }
    } else {
      assert ps == qs;
      WorkedIsElapsed(before);
    }
  }

  /** Before anything completes, and with no phase entered twice, the view and the phase runs
      account for the same time. */
  lemma {:induction false} ShownTimeIsRuns(steps: seq<ThreadStep>)
    requires Chained(PhaseSteps(steps)) && PhaseSteps(steps) != [] && EnteredOnce(PhaseSteps(steps))
    requires forall i :: 0 <= i < |steps| ==> !steps[i].Complete?
    ensures Shown(ViewOf(steps).items) == Time(RunsOf(steps))
  {
    hide Chained, EnteredOnce, ShowsExactly, Shown, Worked, Time, RunsOf, ViewOf, CurrentPhase, PhaseSteps, Counting;
    ShownTimeIsWorked(steps);
    WorkedIsElapsed(steps);
    TimeIsConserved(steps);
  }
}
