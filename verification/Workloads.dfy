/** Exactly which callers are safe on the stacked caches: which sets of operations never lose an
    update from the empty store, and which states careful callers may start from. */
module Workloads {
  import opened Text
  import opened ThreadTypes
  import opened SharedLog
  import opened SharedLogInvariant
  import opened SharedLogTheorems
  import opened KnownDocs
  import opened SoloRuns
  import opened UntaggedBody

  /** No run from the empty store whose calls are in `w`, and which respects the write lock of
      every host, loses an update. */
  ghost predicate Safe(w: set<OpName>) {
    forall evs :: Calls(evs, In(w)) && Locked(INIT, evs) ==> Lossless(Exec(INIT, evs).past)
  }

  function NamesOf(kind: Kind): set<OpName> {
    match kind
    case ThreadKind => {GetName, DeleteName, AppendName, PreflightName, SetTitleName, LockTitleName}
    case ControlKind => {MutateName, LoadName, SaveName, DeleteName}
  }

  /** A thread's `get` asks for a body even when it was told that there is no object; the
      control-state store's `load` does not, but it has an unconditional `save`. */
  function Hazards(kind: Kind): set<OpName> {
    match kind
    case ThreadKind => {GetName, DeleteName}
    case ControlKind => {SaveName, DeleteName}
  }

  // ---- Without a hazard ------------------------------------------------------------------

  lemma {:induction false} CallsAreCareful(s: State, evs: seq<Event>, p: Op -> bool)
    requires Calls(evs, p) && forall op :: p(op) ==> !op.Get? && !op.Delete? && !op.Save?
    ensures Careful(s, evs)
    decreases |evs|
  {
    if evs != [] {
      CallsTail(evs, p);
      CallsAreCareful(Step(s, evs[0]), evs[1..], p);
    }
  }

  lemma NoHazardIsSafe(w: set<OpName>)
    requires w !! {GetName, DeleteName, SaveName}
    ensures Safe(w)
  {
    forall evs | Calls(evs, In(w)) && Locked(INIT, evs) ensures Lossless(Exec(INIT, evs).past) {
      CallsAreCareful(INIT, evs, In(w));
      CarefulCallersLoseNothing(evs);
    }
  }

  // ---- With a hazard ---------------------------------------------------------------------

  lemma InitKnown(kind: Kind)
    ensures Inv(INIT) && Known(kind, INIT)
  {
  }

  /** An untagged body within the workload is enough: the writers that lose an update are in it. */
  lemma UntaggedIsUnsafe(kind: Kind, w: set<OpName>, evs: seq<Event>)
    requires WriterName(kind) in w && w <= NamesOf(kind)
    requires Calls(evs, In(w)) && Locked(INIT, evs) && !Tagged(Exec(INIT, evs))
    ensures !Safe(w)
  {
    InitKnown(kind);
    forall op | In(w)(op) ensures OpsOf(kind)(op) {}
    CallsWeaken(evs, In(w), OpsOf(kind));
    KnownRun(kind, INIT, evs);
    hide Known, Tagged, Lossless, Exec, Locked;
    var more := UntaggedLoses(kind, Exec(INIT, evs));
    CallsWeaken(more, In({WriterName(kind)}), In(w));
    CallsConcat(evs, more, In(w));
    ExecConcat(INIT, evs, more);
    LockedConcat(INIT, evs, more);
    assert Calls(evs + more, In(w)) && Locked(INIT, evs + more) && !Lossless(Exec(INIT, evs + more).past);
  }

  /** The race of a `get` with the first write: no etag is seen, then a body is. */
  lemma {:induction false} KeepsUntagged(s: State, t: TaskId, issue: Etag)
    requires s.past != [] && Now(s).Version? && Fresh(s.past, issue)
    requires t in s.tasks && s.tasks[t].pc.GetInner? && s.tasks[t].pc.tag.None?
    ensures !Tagged(Exec(s, Runs(t, issue, 2)))
  {
    hide Exec, Advance, Fresh;
    RunsStep(s, t, issue, 2);
    AdvanceKeep(s, t, issue);
    var s1 := Advance(s, t, issue);
    RunsStep(s1, t, issue, 1);
    AdvanceKept(s1, t, issue);
    var s2 := Advance(s1, t, issue);
    assert s.tasks[t].host in s2.hosts && s2.hosts[s.tasks[t].host].entry == Some(Bytes(Now(s).doc, None));
    RunsNone(s2, t, issue);
  }

  /** A call that waits between the two requests while a peer on a fresh host stores the object. */
  lemma LateWrite(s: State, t: TaskId, u: TaskId, h: HostId, op: Op, issue: Etag) returns (evs: seq<Event>)
    requires s.past != [] && Now(s).Gone? && Writer(op) && Decide(op, None).Write?
    requires t in s.tasks && s.tasks[t].pc.GetInner? && s.tasks[t].pc.tag.None?
    requires u !in s.tasks && h !in s.hosts && Fresh(s.past, issue) && Fresh(s.past, issue + 1)
    requires LockIsFree(s, h)
    ensures !Tagged(Exec(s, evs)) && Calls(evs, In({NameOf(op)})) && Locked(s, evs)
  {
    hide Exec, Advance, Runs, Decide, Tagged, Locked, LockIsFree;
    var peer := SoloCall(s, u, h, op, issue);
    KeepsUntagged(Exec(s, peer), t, issue + 1);
    ExecConcat(s, peer, Runs(t, issue + 1, 2));
    RunsBeginNothing(t, issue + 1, 2);
    NoWriterLocked(Exec(s, peer), Runs(t, issue + 1, 2));
    LockedConcat(s, peer, Runs(t, issue + 1, 2));
    evs := peer + Runs(t, issue + 1, 2);
  }

  const READING := INIT.(tasks := map[0 := Task(0, Get, 0, 0, HeadEntry)])

  lemma AdvanceAbsent(s: State, t: TaskId, issue: Etag)
    requires t in s.tasks && s.tasks[t].pc == Headed(None) && s.tasks[t].op.Get?
    ensures Advance(s, t, issue) == Goto(s, t, GetEntry(None))
  {
    hide AdvanceWrite;
  }

  lemma BeginGet(evs: seq<Event>)
    requires evs == [Begin(0, 0, Get)] + Runs(0, 0, 5)
    ensures Exec(INIT, evs) == Exec(READING, Runs(0, 0, 5)) && Calls(evs, In({GetName}))
  {
    assert evs[0] == Begin(0, 0, Get) && evs[1..] == Runs(0, 0, 5);
    RunsBeginNothing(0, 0, 5);
    hide Runs;
    assert Step(INIT, evs[0]) == READING;
  }

  /** `get` on host 0 up to the moment before it asks for the body of an absent object. */
  lemma GetWaits() returns (evs: seq<Event>)
    ensures Exec(INIT, evs) == Goto(READING, 0, GetInner(None, None)) && Calls(evs, In({GetName}))
  {
    hide Exec, Runs, Advance;
    evs := [Begin(0, 0, Get)] + Runs(0, 0, 5);
    BeginGet(evs);
    assert READING == Goto(READING, 0, HeadEntry);
    AdvanceEntry(Goto(READING, 0, HeadEntry), 0, 0);
    Hop(READING, 0, 0, 5, HeadEntry, HeadInner);
    AdvanceInner(Goto(READING, 0, HeadInner), 0, 0);
    Hop(READING, 0, 0, 4, HeadInner, Headed(None));
    AdvanceAbsent(Goto(READING, 0, Headed(None)), 0, 0);
    Hop(READING, 0, 0, 3, Headed(None), GetEntry(None));
    AdvanceTagHead(Goto(READING, 0, GetEntry(None)), 0, 0);
    Hop(READING, 0, 0, 2, GetEntry(None), TagHead(None));
    AdvanceGetInner(Goto(READING, 0, TagHead(None)), 0, 0);
    Hop(READING, 0, 0, 1, TagHead(None), GetInner(None, None));
    RunsNone(Goto(READING, 0, GetInner(None, None)), 0, 0);
  }

  const STEP := Append(Recorded("first", 0))

  /** The stack as it is loses updates to one `get` and one append on an empty store. */
  lemma GetRace() returns (evs: seq<Event>)
    ensures Calls(evs, In({GetName, AppendName})) && Locked(INIT, evs) && !Tagged(Exec(INIT, evs))
  {
    hide Tagged, Locked;
    var waits := GetWaits();
    NoWriterLocked(INIT, waits);
    hide Exec;
    var late := LateWrite(Goto(READING, 0, GetInner(None, None)), 0, 1, 1, STEP, 0);
    ExecConcat(INIT, waits, late);
    LockedConcat(INIT, waits, late);
    evs := waits + late;
  }

  /** A first write on host 0. */
  lemma FirstWrite(op: Op) returns (evs: seq<Event>, s: State)
    requires Writer(op) && Decide(op, None).Write?
    ensures s == Exec(INIT, evs) && Calls(evs, In({NameOf(op)}))
    ensures s.past == [Gone, Version(Decide(op, None).next, 0, 0, op)]
    ensures s.tasks.Keys == {0} && s.tasks[0].host == 0 && s.hosts.Keys <= {0} && Locked(INIT, evs)
  {
    hide Exec, Decide, Locked;
    evs := SoloCall(INIT, 0, 0, op, 0);
    s := Exec(INIT, evs);
  }

  /** A call on a fresh host up to the moment before it asks for the etag of its body. */
  lemma WriterWaits(s: State, t: TaskId, h: HostId, op: Op, issue: Etag) returns (evs: seq<Event>, s': State)
    requires s.past != [] && Now(s).Version? && Writer(op)
    requires t !in s.tasks && h !in s.hosts && Fresh(s.past, issue)
    ensures s' == Exec(s, evs) && Calls(evs, In({NameOf(op)}))
    ensures s' == s.(tasks := s.tasks[t := Task(h, op, |s.past| - 1, 0, TagHead(Some(Now(s).etag)))])
    ensures LockIsFree(s, h) ==> Locked(s, evs)
  {
    hide Exec, Advance, Runs, Fresh, Locked, LockIsFree;
    evs := Call(t, h, op, issue, 4);
    BeginStep(s, t, h, op, issue, 4);
    var e := Some(Now(s).etag);
    var s0 := s.(tasks := s.tasks[t := Task(h, op, |s.past| - 1, 0, HeadEntry)]);
    SoloHead(s0, t, issue, 4);
    AdvanceTagHead(Goto(s0, t, GetEntry(e)), t, issue);
    Hop(s0, t, issue, 1, GetEntry(e), TagHead(e));
    s' := Goto(s0, t, TagHead(e));
    RunsNone(s', t, issue);
    assert s'.tasks == s.tasks[t := Task(h, op, |s.past| - 1, 0, TagHead(e))];
  }

  lemma ThreeSteps(s: State, evs: seq<Event>)
    requires |evs| == 3
    ensures Exec(s, evs) == Step(Step(Step(s, evs[0]), evs[1]), evs[2])
  {
    hide Step;
    var s1 := Step(s, evs[0]);
    var s2 := Step(s1, evs[1]);
    var s3 := Step(s2, evs[2]);
    assert evs[1..][1..] == evs[2..] && evs[2..][1..] == [];
    assert Exec(s3, []) == s3;
    assert Exec(s2, evs[2..]) == s3;
    assert Exec(s1, evs[1..]) == s3;
  }

  /** A deletion that lands while call `t` waits there, and that call's next step. */
  lemma DeletedMeanwhile(s: State, t: TaskId, u: TaskId, h: HostId, issue: Etag) returns (evs: seq<Event>, s': State)
    requires s.past != [] && t in s.tasks && s.tasks[t].pc.TagHead? && u !in s.tasks && Fresh(s.past, issue)
    ensures s' == Exec(s, evs) && Calls(evs, In({DeleteName}))
    ensures s'.past == s.past + [Gone] && s'.hosts == s.hosts && s'.tasks.Keys == s.tasks.Keys + {u}
    ensures t in s'.tasks && s'.tasks[t].pc.GetInner? && s'.tasks[t].pc.tag.None?
    ensures s'.tasks[u].host == h && forall v :: v in s.tasks ==> s'.tasks[v].host == s.tasks[v].host
    ensures Locked(s, evs)
  {
    evs := [Begin(u, h, Delete), Run(u, issue), Run(t, issue)];
    var s1 := Step(s, evs[0]);
    var s2 := Step(s1, evs[1]);
    assert s2 == Goto(s1.(past := s.past + [Gone]), u, DeleteEntry) by { hide AdvanceRead; }
    assert Fresh(s2.past, issue);
    s' := Step(s2, evs[2]);
    AdvanceGetInner(s2, t, issue);
    NoWriterLocked(s, evs);
    hide Step;
    ThreeSteps(s, evs);
  }

  /** A deletion racing two writes leaves an untagged body as well. */
  lemma DeleteRace(op: Op) returns (evs: seq<Event>)
    requires Writer(op) && Decide(op, None).Write?
    ensures Calls(evs, In({NameOf(op), DeleteName})) && Locked(INIT, evs) && !Tagged(Exec(INIT, evs))
  {
    hide Exec, Decide, Tagged, Locked;
    var first, s1 := FirstWrite(op);
    var waits, s2 := WriterWaits(s1, 1, 1, op, 1);
    var gone, s3 := DeletedMeanwhile(s2, 1, 2, 2, 1);
    var late := LateWrite(s3, 1, 3, 3, op, 1);
    ExecConcat(INIT, first, waits);
    ExecConcat(INIT, first + waits, gone);
    ExecConcat(INIT, first + waits + gone, late);
    LockedConcat(INIT, first, waits);
    LockedConcat(INIT, first + waits, gone);
    LockedConcat(INIT, first + waits + gone, late);
    evs := first + waits + gone + late;
  }

  /** One `save` leaves an untagged body on its host, without any race. */
  lemma SaveLeavesUntagged(suite: string, payload: string) returns (evs: seq<Event>)
    ensures Calls(evs, In({SaveName})) && Locked(INIT, evs) && !Tagged(Exec(INIT, evs))
  {
    var op := Save(suite, payload);
    evs := [Begin(0, 0, op), Run(0, 0), Run(0, 1)];
    var s1 := Step(INIT, evs[0]);
    var s2 := Step(s1, evs[1]);
    var doc := Encode(suite, payload);
    assert s2.past == [Gone, Version(doc, 0, 0, op)] && s2.tasks[0].pc == SaveEntry(doc, 1) by { hide AdvanceRead; }
    var s3 := Step(s2, evs[2]);
    assert 0 in s3.hosts && s3.hosts[0].entry == Some(Bytes(doc, None)) by { hide AdvanceRead; }
    NoWriterLocked(INIT, evs);
    hide Step;
    ThreeSteps(INIT, evs);
  }

  lemma HazardIsUnsafe(kind: Kind, w: set<OpName>)
    requires WriterName(kind) in w && w <= NamesOf(kind) && !(w !! Hazards(kind))
    ensures !Safe(w)
  {
    hide Tagged, Exec, Safe, Locked;
    var plain := if kind.ThreadKind? then STEP else Mutate("", _ => Some(""));
    var evs;
    if DeleteName in w {
      evs := DeleteRace(plain);
      CallsWeaken(evs, In({NameOf(plain), DeleteName}), In(w));
    } else if kind.ThreadKind? {
      evs := GetRace();
      CallsWeaken(evs, In({GetName, AppendName}), In(w));
    } else {
      evs := SaveLeavesUntagged("", "");
      CallsWeaken(evs, In({SaveName}), In(w));
    }
    UntaggedIsUnsafe(kind, w, evs);
  }

  /** The exact condition on callers. On a thread log a workload with appends loses no update, in
      any interleaving on any number of hosts, if and only if nobody calls `get` and nobody
      deletes; on a control state one with mutations, if and only if nobody saves unconditionally
      and nobody deletes. */
  lemma SafeExactlyWithoutHazards(kind: Kind, w: set<OpName>)
    requires WriterName(kind) in w && w <= NamesOf(kind)
    ensures Safe(w) <==> w !! Hazards(kind)
  {
    hide Safe;
    if w !! Hazards(kind) { NoHazardIsSafe(w); } else { HazardIsUnsafe(kind, w); }
  }

  // ---- From a given state ----------------------------------------------------------------

  /** Careful callers who start from `s`, under the write locks of their hosts, lose nothing. */
  ghost predicate SafeFrom(kind: Kind, s: State) {
    forall evs :: Calls(evs, OpsOf(kind)) && Careful(s, evs) && Locked(s, evs) ==> Lossless(Exec(s, evs).past)
  }

  lemma IdleIsQuiet(s: State)
    requires Idle(s) && Tagged(s) && s.past != []
    ensures Quiet(s, |s.past|)
  {
  }

  /** The exact condition on states with no call under way: careful callers lose nothing from
      there on if and only if no host holds a body without an etag. */
  lemma SafeExactlyFromTagged(kind: Kind, s: State)
    requires Inv(s) && Known(kind, s) && Idle(s)
    ensures SafeFrom(kind, s) <==> Tagged(s)
  {
    if Tagged(s) {
      IdleIsQuiet(s);
      forall evs | Calls(evs, OpsOf(kind)) && Careful(s, evs) && Locked(s, evs) ensures Lossless(Exec(s, evs).past) {
        CarefulRunOk(s, evs, |s.past|);
      }
    } else {
      hide Known, Inv, Tagged, Locked;
      var evs := UntaggedLoses(kind, s);
      CallsAreCareful(s, evs, In({WriterName(kind)}));
      CallsWeaken(evs, In({WriterName(kind)}), OpsOf(kind));
    }
  }
}
