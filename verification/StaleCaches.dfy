/** What the two caches keep although it is no longer, or never was, right: the belief that an
    object is missing, and a log of another schema in the memo. */
module StaleCaches {
  import opened Text
  import opened ThreadTypes
  import opened SharedLog
  import opened SharedLogInvariant
  import opened SharedLogTheorems
  import opened KnownDocs
  import opened SoloRuns
  import opened UntaggedBody
  import opened Workloads

  // ---- The belief that there is no object ------------------------------------------------

  predicate BelievesMissing(s: State, h: HostId) {
    HostOf(s, h).entry == Some(Missing)
  }

  /** A step of a call on host `h`. */
  predicate StepOn(s: State, ev: Event, h: HostId) {
    ev.Run? && ev.task in s.tasks && s.tasks[ev.task].host == h && Fresh(s.past, ev.issue)
  }

  /** A body is kept, a write is noted, a conflict drops the entry, or a `save` is noted. */
  predicate Refreshes(s: State, ev: Event, h: HostId) {
    StepOn(s, ev, h)
    && var pc := s.tasks[ev.task].pc; pc.Keep? || pc.Kept? || pc.Invalidate? || pc.SaveEntry?
  }

  /** The object was not found, or has been deleted by this host. */
  predicate Plants(s: State, ev: Event, h: HostId) {
    StepOn(s, ev, h) && (s.tasks[ev.task].pc.KeepMissing? || s.tasks[ev.task].pc.DeleteEntry?)
  }

  lemma OtherHosts(s: State, t: TaskId, issue: Etag, h: HostId)
    requires t in s.tasks && s.tasks[t].host != h
    ensures HostOf(Advance(s, t, issue), h) == HostOf(s, h)
  {
    hide AdvanceRead, AdvanceWrite;
  }

  lemma BeliefAfterStep(s: State, t: TaskId, issue: Etag)
    requires t in s.tasks
    ensures var h, pc := s.tasks[t].host, s.tasks[t].pc;
            BelievesMissing(Advance(s, t, issue), h) <==>
            || pc.KeepMissing? || pc.DeleteEntry?
            || (BelievesMissing(s, h) && !pc.Keep? && !pc.Kept? && !pc.Invalidate? && !pc.SaveEntry?)
  {
    hide AfterHead, AfterGet, Decided;
    if Reading(s.tasks[t].pc) { hide AdvanceWrite; } else { hide AdvanceRead; }
  }

  /** The belief ends and begins by exactly these steps. What peers do never changes it. */
  lemma BeliefChangesOnly(s: State, ev: Event, h: HostId)
    ensures BelievesMissing(Step(s, ev), h) <==>
            Plants(s, ev, h) || (BelievesMissing(s, h) && !Refreshes(s, ev, h))
  {
    hide Advance, Fresh;
    if ev.Run? && ev.task in s.tasks && Fresh(s.past, ev.issue) {
      var t, g := ev.task, s.tasks[ev.task].host;
      var s' := Advance(s, t, ev.issue);
      if g != h { assert HostOf(s', h) == HostOf(s, h) by { OtherHosts(s, t, ev.issue, h); } }
      if g == h { BeliefAfterStep(s, t, ev.issue); }
    }
  }

  /** No step of the run refreshes host `h`. */
  ghost predicate Undisturbed(s: State, evs: seq<Event>, h: HostId)
    decreases |evs|
  {
    evs != [] ==> !Refreshes(s, evs[0], h) && Undisturbed(Step(s, evs[0]), evs[1..], h)
  }

  /** A `get` that can end only in `NotFound` or in a failure. */
  predicate Denied(k: Task) {
    k.pc in {HeadEntry, Headed(None), GetEntry(None), Done(NotFound), Done(Failed)}
  }

  lemma DeniedStep(s: State, ev: Event, h: HostId, t: TaskId)
    requires BelievesMissing(s, h)
    requires t in s.tasks && s.tasks[t].host == h && s.tasks[t].op.Get? ==> Denied(s.tasks[t])
    ensures var s' := Step(s, ev);
            t in s'.tasks && s'.tasks[t].host == h && s'.tasks[t].op.Get? ==> Denied(s'.tasks[t])
  {
    hide Fresh, Decided, AfterGet, AdvanceWrite;
    if ev.Run? && ev.task in s.tasks && ev.task != t { hide Advance; }
    if ev.Run? && t in s.tasks && s.tasks[t].pc.Done? { DoneStays(s, t, ev.issue); }
  }

  /** While the belief lasts, every `get` of that host that begins is denied the object, whatever
      peers have stored. */
  lemma {:induction false} GetIsDenied(s: State, evs: seq<Event>, h: HostId, t: TaskId)
    requires BelievesMissing(s, h) && Undisturbed(s, evs, h)
    requires t in s.tasks && s.tasks[t].host == h && s.tasks[t].op.Get? ==> Denied(s.tasks[t])
    ensures var s' := Exec(s, evs);
            && BelievesMissing(s', h)
            && (t in s'.tasks && s'.tasks[t].host == h && s'.tasks[t].op.Get? ==> Denied(s'.tasks[t]))
    decreases |evs|
  {
    if evs != [] {
      BeliefChangesOnly(s, evs[0], h);
      DeniedStep(s, evs[0], h, t);
      hide BelievesMissing, Denied, Step;
      GetIsDenied(Step(s, evs[0]), evs[1..], h, t);
    }
  }

  // ---- It is reached ---------------------------------------------------------------------

  lemma RunOne(s: State, t: TaskId, issue: Etag)
    requires t in s.tasks && Fresh(s.past, issue)
    ensures Exec(s, Runs(t, issue, 1)) == Advance(s, t, issue)
  {
    hide Advance, Fresh, Exec;
    RunsStep(s, t, issue, 1);
    RunsNone(Advance(s, t, issue), t, issue);
  }

  lemma AdvanceVain(s: State, t: TaskId, issue: Etag)
    requires t in s.tasks && s.tasks[t].pc.GetInner? && Now(s).Gone?
    ensures Advance(s, t, issue) == Goto(s, t, KeepMissing)
  {
    hide AdvanceWrite;
  }

  lemma AdvanceMissing(s: State, t: TaskId, issue: Etag)
    requires t in s.tasks && s.tasks[t].pc.KeepMissing?
    ensures Advance(s, t, issue) == Goto(SetEntry(s, s.tasks[t].host, Some(Missing)), t, Done(NotFound))
  {
    hide AdvanceWrite;
  }

  /** `get` of an object that is not there. */
  lemma LookInVain() returns (evs: seq<Event>, s: State)
    ensures s == Exec(INIT, evs) && s.past == [Gone] && s.tasks.Keys == {0}
    ensures s.hosts == map[0 := Host(Some(Missing), None)]
  {
    hide Exec, Runs, Advance;
    var waits := GetWaits();
    var s0 := Goto(READING, 0, GetInner(None, None));
    RunsStep(s0, 0, 0, 2);
    AdvanceVain(s0, 0, 0);
    var s1 := Advance(s0, 0, 0);
    RunOne(s1, 0, 0);
    AdvanceMissing(s1, 0, 0);
    s := Advance(s1, 0, 0);
    ExecConcat(INIT, waits, Runs(0, 0, 2));
    evs := waits + Runs(0, 0, 2);
  }

  lemma AdvanceDenied(s: State, t: TaskId, issue: Etag)
    requires t in s.tasks && BelievesMissing(s, s.tasks[t].host) && s.tasks[t].op.Get?
    ensures s.tasks[t].pc == HeadEntry ==> Advance(s, t, issue) == Goto(s, t, Headed(None))
    ensures s.tasks[t].pc == Headed(None) ==> Advance(s, t, issue) == Goto(s, t, GetEntry(None))
    ensures s.tasks[t].pc == GetEntry(None) ==> Advance(s, t, issue) == Goto(s, t, Done(NotFound))
  {
    hide AdvanceWrite, AfterGet, Decided;
  }

  /** A later `get` on a host that believes so, run alone. */
  lemma LookAgain(s: State, t: TaskId, h: HostId, issue: Etag) returns (evs: seq<Event>)
    requires s.past != [] && t !in s.tasks && BelievesMissing(s, h) && Fresh(s.past, issue)
    ensures var s' := Exec(s, evs);
            && s'.past == s.past && s'.hosts == s.hosts
            && t in s'.tasks && s'.tasks[t] == Task(h, Get, |s.past| - 1, 0, Done(NotFound))
  {
    hide Exec, Runs, Advance, Fresh, Call;
    evs := Call(t, h, Get, issue, 3);
    BeginStep(s, t, h, Get, issue, 3);
    var s0 := s.(tasks := s.tasks[t := Task(h, Get, |s.past| - 1, 0, HeadEntry)]);
    assert s0 == Goto(s0, t, HeadEntry) by { assert s0.tasks == Goto(s0, t, HeadEntry).tasks; }
    AdvanceDenied(Goto(s0, t, HeadEntry), t, issue);
    Hop(s0, t, issue, 3, HeadEntry, Headed(None));
    AdvanceDenied(Goto(s0, t, Headed(None)), t, issue);
    Hop(s0, t, issue, 2, Headed(None), GetEntry(None));
    AdvanceDenied(Goto(s0, t, GetEntry(None)), t, issue);
    Hop(s0, t, issue, 1, GetEntry(None), Done(NotFound));
    RunsNone(Goto(s0, t, Done(NotFound)), t, issue);
  }

  /** The run: `get` on host 0 finds nothing, a peer on host 1 appends the first step, and `get`
      on host 0 denies the stored log. */
  lemma StoredLogIsDenied() returns (evs: seq<Event>)
    ensures var s := Exec(INIT, evs);
            && Now(s).Version? && GoodLog(Now(s).doc) && BelievesMissing(s, 0)
            && 2 in s.tasks && s.tasks[2] == Task(0, Get, |s.past| - 1, 0, Done(NotFound))
  {
    hide Exec;
    var look, s1 := LookInVain();
    var step := Append(Recorded("first", 0));
    var peer := SoloCall(s1, 1, 1, step, 0);
    var s2 := Exec(s1, peer);
    assert s2.past == [Gone, Version(Decide(step, None).next, 0, 1, step)] && s2.hosts[0] == s1.hosts[0];
    var again := LookAgain(s2, 2, 0, 1);
    ExecConcat(INIT, look, peer);
    ExecConcat(INIT, look + peer, again);
    evs := look + peer + again;
  }

  // ---- It costs one conflict -------------------------------------------------------------

  /** The store had this etag, or no object, at some moment since version `n`. */
  ghost predicate SeenSince(past: seq<Version>, n: nat, head: Option<Etag>) {
    if head.Some? then exists k: nat :: n <= k && TagAt(past, k, head.value) else GoneSince(past, n)
  }

  lemma SeenExtends(past: seq<Version>, past': seq<Version>, n: nat, head: Option<Etag>)
    requires past <= past' && SeenSince(past, n, head)
    ensures SeenSince(past', n, head)
  {
    if head.Some? {
      var k: nat :| n <= k && TagAt(past, k, head.value);
      assert TagAt(past', k, head.value);
    } else {
      GoneExtends(past, past', n);
    }
  }

  lemma SeenNow(s: State, n: nat)
    requires s.past != [] && n < |s.past|
    ensures SeenSince(s.past, n, EtagOf(Now(s)))
  {
    PresentHead(s, n);
  }

  /** What the call compares its write with has been asked from the store since `n`. */
  ghost predicate Asked(past: seq<Version>, pc: Pc, n: nat) {
    match pc
    case Headed(head) => SeenSince(past, n, head)
    case GetEntry(head) => SeenSince(past, n, head)
    case CheckTag(head, _, _) => SeenSince(past, n, head)
    case TagHead(head) => SeenSince(past, n, head)
    case GetInner(head, _) => SeenSince(past, n, head)
    case Keep(head, _, _) => SeenSince(past, n, head)
    case Got(head, _) => SeenSince(past, n, head)
    case Put(head, _, _, _) => SeenSince(past, n, head)
    case _ => true
  }

  lemma AskedExtends(past: seq<Version>, past': seq<Version>, pc: Pc, n: nat)
    requires past <= past' && Asked(past, pc, n)
    ensures Asked(past', pc, n)
  {
    forall head | SeenSince(past, n, head) ensures SeenSince(past', n, head) { SeenExtends(past, past', n, head); }
    hide SeenSince;
  }

  lemma AskedOwnStep(s: State, t: TaskId, issue: Etag, n: nat)
    requires s.past != [] && n < |s.past| && t in s.tasks && s.tasks[t].op.Append?
    requires !BelievesMissing(s, s.tasks[t].host) && Asked(s.past, s.tasks[t].pc, n)
    ensures var s' := Advance(s, t, issue); Asked(s.past, s'.tasks[t].pc, n)
  {
    SeenNow(s, n);
    hide SeenSince, Decide;
    if Reading(s.tasks[t].pc) { hide AdvanceWrite; } else { hide AdvanceRead; }
  }

  lemma AskedStep(s: State, ev: Event, t: TaskId, n: nat)
    requires s.past != [] && n < |s.past| && t in s.tasks && s.tasks[t].op.Append?
    requires !BelievesMissing(s, s.tasks[t].host) && Asked(s.past, s.tasks[t].pc, n)
    ensures var s' := Step(s, ev);
            && s.past <= s'.past && t in s'.tasks && s'.tasks[t].op == s.tasks[t].op
            && s'.tasks[t].host == s.tasks[t].host && Asked(s'.past, s'.tasks[t].pc, n)
  {
    hide Advance, Fresh, SeenSince;
    var s' := Step(s, ev);
    if ev.Run? && ev.task == t && Fresh(s.past, ev.issue) {
      AskedOwnStep(s, t, ev.issue, n);
      AskedExtends(s.past, s'.past, s'.tasks[t].pc, n);
    } else {
      AskedExtends(s.past, s'.past, s.tasks[t].pc, n);
    }
  }

  /** No call of host `h` plants the belief during the run. */
  ghost predicate Unplanted(s: State, evs: seq<Event>, h: HostId)
    decreases |evs|
  {
    evs != [] ==> !Plants(s, evs[0], h) && Unplanted(Step(s, evs[0]), evs[1..], h)
  }

  lemma {:induction false} AskedRun(s: State, evs: seq<Event>, t: TaskId, n: nat)
    requires s.past != [] && n < |s.past| && t in s.tasks && s.tasks[t].op.Append?
    requires !BelievesMissing(s, s.tasks[t].host) && Asked(s.past, s.tasks[t].pc, n)
    requires Unplanted(s, evs, s.tasks[t].host)
    ensures var s' := Exec(s, evs);
            s.past <= s'.past && t in s'.tasks && Asked(s'.past, s'.tasks[t].pc, n)
    decreases |evs|
  {
    if evs != [] {
      AskedStep(s, evs[0], t, n);
      BeliefChangesOnly(s, evs[0], s.tasks[t].host);
      hide Step, Asked, BelievesMissing, Plants;
      AskedRun(Step(s, evs[0]), evs[1..], t, n);
    }
  }

  /** A conflict ends the belief. */
  lemma ConflictEndsBelief(s: State, t: TaskId, issue: Etag)
    requires t in s.tasks && s.tasks[t].pc.Invalidate?
    ensures var s' := Advance(s, t, issue);
            s'.tasks[t].pc.Conflicted? && !BelievesMissing(s', s.tasks[t].host) && s'.past == s.past
  {
    hide AdvanceRead;
  }

  /** A stale belief costs an append at most one conflict, with peers writing at will: once the
      call has met a conflict, its later writes compare with what the store answered since, and a
      further conflict means that somebody has written in the meantime. The exception is another
      call on the same host that plants the belief again. */
  lemma BeliefCostsOneConflict(s: State, evs: seq<Event>, t: TaskId)
    requires s.past != [] && t in s.tasks && s.tasks[t].op.Append? && s.tasks[t].pc.Conflicted?
    requires !BelievesMissing(s, s.tasks[t].host) && Unplanted(s, evs, s.tasks[t].host)
    ensures var s' := Exec(s, evs);
            && s.past <= s'.past && t in s'.tasks
            && (s'.tasks[t].pc.Put? ==> SeenSince(s'.past, |s.past| - 1, s'.tasks[t].pc.head))
            && (s'.tasks[t].pc.Put? && EtagOf(Now(s')) != s'.tasks[t].pc.head ==> |s.past| < |s'.past|)
  {
    var n := |s.past| - 1;
    AskedRun(s, evs, t, n);
    hide Exec;
    var s' := Exec(s, evs);
    if s'.tasks[t].pc.Put? && |s'.past| == |s.past| {
      var head := s'.tasks[t].pc.head;
      if head.Some? {
        var k: nat :| n <= k && TagAt(s'.past, k, head.value);
        assert k == n;
      } else {
        var i: nat :| n <= i && GoneAt(s'.past, i);
        assert i == n;
      }
    }
  }

  // ---- A log of another schema ------------------------------------------------------------

  lemma AdvanceForeign(s: State, t: TaskId, issue: Etag)
    requires t in s.tasks && s.tasks[t].op.Append? && s.tasks[t].pc.Got? && s.tasks[t].pc.head.Some?
    requires s.tasks[t].pc.doc.LogDoc? && !GoodLog(s.tasks[t].pc.doc)
    ensures var k := s.tasks[t];
            Advance(s, t, issue)
            == Goto(SetMemo(s, k.host, Some(Memo(k.pc.doc, k.pc.head.value))), t, Done(Failed))
  {
    hide AdvanceWrite;
  }

  lemma AdvanceMemo(s: State, t: TaskId, issue: Etag)
    requires t in s.tasks && s.tasks[t].op.Get? && s.tasks[t].pc.Headed? && s.tasks[t].pc.head.Some?
    requires var m := HostOf(s, s.tasks[t].host).memo; m.Some? && m.value.etag == s.tasks[t].pc.head.value
    ensures Advance(s, t, issue) == Goto(s, t, Done(Read(HostOf(s, s.tasks[t].host).memo.value.doc)))
  {
    hide AdvanceWrite;
  }

  /** An append to a log of another schema fails, and leaves that log in the memo. */
  lemma AppendPlantsForeign(s: State, t: TaskId, h: HostId, x: ThreadStep, issue: Etag)
    returns (evs: seq<Event>, s': State)
    requires s.past != [] && Now(s).Version? && Now(s).doc.LogDoc? && !GoodLog(Now(s).doc)
    requires t !in s.tasks && h !in s.hosts && Fresh(s.past, issue)
    ensures s' == Exec(s, evs) && s'.past == s.past && s'.tasks.Keys == s.tasks.Keys + {t}
    ensures s'.tasks[t].op == Append(x) && s'.tasks[t].pc == Done(Failed)
    ensures h in s'.hosts
    ensures s'.hosts[h] == Host(Some(Bytes(Now(s).doc, Some(Now(s).etag))), Some(Memo(Now(s).doc, Now(s).etag)))
  {
    hide Exec, Runs, Advance, Fresh, Call;
    var d, e := Now(s).doc, Some(Now(s).etag);
    evs := Call(t, h, Append(x), issue, 8);
    BeginStep(s, t, h, Append(x), issue, 8);
    var s0 := s.(tasks := s.tasks[t := Task(h, Append(x), |s.past| - 1, 0, HeadEntry)]);
    SoloHead(s0, t, issue, 8);
    SoloBody(s0, t, issue, 5);
    var s1 := Goto(s0, t, Keep(e, d, e));
    RunsStep(s1, t, issue, 2);
    AdvanceKept(s1, t, issue);
    var s2 := Advance(s1, t, issue);
    RunOne(s2, t, issue);
    AdvanceForeign(s2, t, issue);
    s' := Advance(s2, t, issue);
  }

  /** The next `get` on that host returns it. */
  lemma GetServesMemo(s: State, t: TaskId, h: HostId, d: Doc, issue: Etag) returns (evs: seq<Event>)
    requires s.past != [] && Now(s).Version? && t !in s.tasks && h in s.hosts && Fresh(s.past, issue)
    requires s.hosts[h].entry != Some(Missing) && s.hosts[h].memo == Some(Memo(d, Now(s).etag))
    ensures var s' := Exec(s, evs); t in s'.tasks && s'.tasks[t].op == Get && s'.tasks[t].pc == Done(Read(d))
  {
    hide Exec, Runs, Advance, Fresh, Call;
    evs := Call(t, h, Get, issue, 3);
    BeginStep(s, t, h, Get, issue, 3);
    var s0 := s.(tasks := s.tasks[t := Task(h, Get, |s.past| - 1, 0, HeadEntry)]);
    assert s0 == Goto(s0, t, HeadEntry) by { assert s0.tasks == Goto(s0, t, HeadEntry).tasks; }
    var headed := Headed(EtagOf(Now(s)));
    AdvanceEntry(Goto(s0, t, HeadEntry), t, issue);
    Hop(s0, t, issue, 3, HeadEntry, HeadInner);
    AdvanceInner(Goto(s0, t, HeadInner), t, issue);
    Hop(s0, t, issue, 2, HeadInner, headed);
    AdvanceMemo(Goto(s0, t, headed), t, issue);
    Hop(s0, t, issue, 1, headed, Done(Read(d)));
    RunsNone(Goto(s0, t, Done(Read(d))), t, issue);
  }

  lemma {:induction false} FailedStays(s: State, evs: seq<Event>, t: TaskId)
    requires t in s.tasks && s.tasks[t].pc.Done?
    ensures t in Exec(s, evs).tasks && Exec(s, evs).tasks[t] == s.tasks[t]
    decreases |evs|
  {
    if evs != [] {
      if evs[0].Run? && evs[0].task == t { DoneStays(s, t, evs[0].issue); }
      assert Step(s, evs[0]).tasks[t] == s.tasks[t] by { hide AdvanceRead, AdvanceWrite; }
      hide Step;
      FailedStays(Step(s, evs[0]), evs[1..], t);
    }
  }

  /** From any state in which a log of another schema is stored: an append of a fresh host is
      refused for its schema, and the `get` that follows returns the very same log. */
  lemma ForeignLogIsServed(s: State, t: TaskId, u: TaskId, h: HostId, issue: Etag) returns (evs: seq<Event>)
    requires s.past != [] && Now(s).Version? && Now(s).doc.LogDoc? && !GoodLog(Now(s).doc)
    requires t !in s.tasks && u !in s.tasks && t != u && h !in s.hosts && Fresh(s.past, issue)
    ensures var s' := Exec(s, evs);
            && t in s'.tasks && s'.tasks[t].op.Append? && s'.tasks[t].pc == Done(Failed)
            && u in s'.tasks && s'.tasks[u].op.Get? && s'.tasks[u].pc == Done(Read(Now(s).doc))
  {
    hide Exec, Fresh;
    var refused, s1 := AppendPlantsForeign(s, t, h, Recorded("step", 0), issue);
    var served := GetServesMemo(s1, u, h, Now(s).doc, issue);
    ExecConcat(s, refused, served);
    evs := refused + served;
    FailedStays(s1, served, t);
  }
}
