/** Calls that run alone, step by step, and the runs that the write locks of the hosts allow. */
module SoloRuns {
  import opened Text
  import opened ThreadTypes
  import opened SharedLog
  import opened SharedLogInvariant
  import opened SharedLogTheorems

  // ---- The write lock of a host ----------------------------------------------------------

  /** The calls that load a document and write one conditionally. */
  predicate Writer(op: Op) {
    !op.Get? && !op.Delete? && !op.Load? && !op.Save?
  }

  /** No conditional write of host `h` is under way, so that its write lock is free. */
  ghost predicate LockIsFree(s: State, h: HostId) {
    forall t :: t in s.tasks && s.tasks[t].host == h && Writer(s.tasks[t].op) ==> s.tasks[t].pc.Done?
  }

  /** The run respects the locks that serialise the conditional writes of each host: such a call
      begins only when the lock of its host is free. */
  ghost predicate Locked(s: State, evs: seq<Event>)
    decreases |evs|
  {
    evs != [] ==>
      && (evs[0].Begin? && Writer(evs[0].op) ==> LockIsFree(s, evs[0].host))
      && Locked(Step(s, evs[0]), evs[1..])
  }

  lemma {:induction false} LockedConcat(s: State, a: seq<Event>, b: seq<Event>)
    requires Locked(s, a) && Locked(Exec(s, a), b)
    ensures Locked(s, a + b)
    decreases |a|
  {
    if a == [] {
      assert a + b == b;
    } else {
      hide Step, LockIsFree;
      assert (a + b)[0] == a[0] && (a + b)[1..] == a[1..] + b;
      LockedConcat(Step(s, a[0]), a[1..], b);
    }
  }

  lemma {:induction false} NoWriterLocked(s: State, evs: seq<Event>)
    requires forall i :: 0 <= i < |evs| && evs[i].Begin? ==> !Writer(evs[i].op)
    ensures Locked(s, evs)
    decreases |evs|
  {
    if evs != [] {
      hide Step;
      assert forall i :: 0 <= i < |evs[1..]| ==> evs[1..][i] == evs[i + 1];
      NoWriterLocked(Step(s, evs[0]), evs[1..]);
    }
  }

  ghost predicate Idle(s: State) {
    forall t :: t in s.tasks ==> s.tasks[t].pc.Done?
  }

  /** Calls under way can all be cancelled, which touches neither the store nor a host. */
  lemma {:induction false} AbortAll(s: State, ts: set<TaskId>) returns (evs: seq<Event>)
    requires forall t :: t in s.tasks && t !in ts ==> s.tasks[t].pc.Done?
    ensures forall i :: 0 <= i < |evs| ==> evs[i].Abort?
    ensures var s' := Exec(s, evs); Idle(s') && s'.past == s.past && s'.hosts == s.hosts
    decreases ts
  {
    if ts == {} {
      evs := [];
    } else {
      var t :| t in ts;
      var s1 := Step(s, Abort(t));
      var rest := AbortAll(s1, ts - {t});
      evs := [Abort(t)] + rest;
      assert evs[0] == Abort(t) && evs[1..] == rest;
      hide Step;
    }
  }

  // ---- Solo runs -------------------------------------------------------------------------

  function Runs(t: TaskId, issue: Etag, n: nat): seq<Event> {
    if n == 0 then [] else [Run(t, issue)] + Runs(t, issue, n - 1)
  }

  lemma RunsStep(s: State, t: TaskId, issue: Etag, n: nat)
    requires n > 0 && t in s.tasks && Fresh(s.past, issue)
    ensures Exec(s, Runs(t, issue, n)) == Exec(Advance(s, t, issue), Runs(t, issue, n - 1))
  {
    hide Advance, Fresh;
    var evs := Runs(t, issue, n);
    assert evs[0] == Run(t, issue) && evs[1..] == Runs(t, issue, n - 1);
  }

  lemma RunsBeginNothing(t: TaskId, issue: Etag, n: nat)
    ensures forall i :: 0 <= i < |Runs(t, issue, n)| ==> Runs(t, issue, n)[i] == Run(t, issue)
  {
  }

  lemma RunsNone(s: State, t: TaskId, issue: Etag)
    ensures Exec(s, Runs(t, issue, 0)) == s
  {
  }

  function Call(t: TaskId, h: HostId, op: Op, issue: Etag, n: nat): seq<Event> {
    [Begin(t, h, op)] + Runs(t, issue, n)
  }

  /** Only calls of `p` and `q` begin. */
  ghost predicate Begins(evs: seq<Event>, p: Op, q: Op) {
    forall i :: 0 <= i < |evs| && evs[i].Begin? ==> evs[i].op == p || evs[i].op == q
  }

  lemma BeginStep(s: State, t: TaskId, h: HostId, op: Op, issue: Etag, n: nat)
    requires t !in s.tasks && s.past != []
    ensures Begins(Call(t, h, op, issue, n), op, op)
    ensures !Writer(op) || LockIsFree(s, h) ==> Locked(s, Call(t, h, op, issue, n))
    ensures Exec(s, Call(t, h, op, issue, n))
         == Exec(s.(tasks := s.tasks[t := Task(h, op, |s.past| - 1, 0, FirstPc(op))]), Runs(t, issue, n))
  {
    var evs := Call(t, h, op, issue, n);
    assert evs[0] == Begin(t, h, op) && evs[1..] == Runs(t, issue, n);
    RunsBeginNothing(t, issue, n);
    NoWriterLocked(Step(s, evs[0]), evs[1..]);
  }

  lemma BeginsConcat(a: seq<Event>, b: seq<Event>, p: Op, q: Op)
    requires Begins(a, p, p) && Begins(b, q, q)
    ensures Begins(a + b, p, q)
  {
  }

  lemma GotoGoto(s: State, t: TaskId, p: Pc, q: Pc)
    requires t in s.tasks
    ensures Goto(Goto(s, t, p), t, q) == Goto(s, t, q)
  {
    assert Goto(Goto(s, t, p), t, q).tasks == Goto(s, t, q).tasks;
  }

  /** One step that only moves a call to its next point. */
  lemma Hop(s: State, t: TaskId, issue: Etag, n: nat, p: Pc, q: Pc)
    requires n > 0 && t in s.tasks && Fresh(s.past, issue)
    requires Advance(Goto(s, t, p), t, issue) == Goto(Goto(s, t, p), t, q)
    ensures Exec(Goto(s, t, p), Runs(t, issue, n)) == Exec(Goto(s, t, q), Runs(t, issue, n - 1))
  {
    hide Exec, Advance;
    RunsStep(Goto(s, t, p), t, issue, n);
    GotoGoto(s, t, p, q);
  }

  lemma AdvanceEntry(s: State, t: TaskId, issue: Etag)
    requires t in s.tasks && s.tasks[t].pc == HeadEntry && HostOf(s, s.tasks[t].host).entry != Some(Missing)
    ensures Advance(s, t, issue) == Goto(s, t, HeadInner)
  {
    hide AdvanceWrite;
  }

  lemma AdvanceInner(s: State, t: TaskId, issue: Etag)
    requires t in s.tasks && s.tasks[t].pc == HeadInner
    ensures Advance(s, t, issue) == Goto(s, t, Headed(EtagOf(Now(s))))
  {
    hide AdvanceWrite;
  }

  lemma AdvanceHeaded(s: State, t: TaskId, issue: Etag)
    requires t in s.tasks && s.tasks[t].pc == Headed(EtagOf(Now(s)))
    requires Now(s).Version? || Writer(s.tasks[t].op)
    requires Now(s).Version? && HostOf(s, s.tasks[t].host).memo.Some?
             ==> HostOf(s, s.tasks[t].host).memo.value.etag != Now(s).etag
    ensures Advance(s, t, issue) ==
            Goto(s, t, if Now(s).Gone? then Decided(s.tasks[t].op, None, None) else GetEntry(Some(Now(s).etag)))
  {
    hide AdvanceWrite, Decided;
  }

  lemma AdvanceTagHead(s: State, t: TaskId, issue: Etag)
    requires t in s.tasks && s.tasks[t].pc.GetEntry? && HostOf(s, s.tasks[t].host).entry.None?
    ensures Advance(s, t, issue) == Goto(s, t, TagHead(s.tasks[t].pc.head))
  {
    hide AdvanceWrite;
  }

  lemma AdvanceGetInner(s: State, t: TaskId, issue: Etag)
    requires t in s.tasks && s.tasks[t].pc.TagHead?
    ensures Advance(s, t, issue) == Goto(s, t, GetInner(s.tasks[t].pc.head, EtagOf(Now(s))))
  {
    hide AdvanceWrite;
  }

  lemma AdvanceKeep(s: State, t: TaskId, issue: Etag)
    requires t in s.tasks && s.tasks[t].pc.GetInner? && Now(s).Version?
    ensures Advance(s, t, issue) == Goto(s, t, Keep(s.tasks[t].pc.head, Now(s).doc, s.tasks[t].pc.tag))
  {
    hide AdvanceWrite;
  }

  lemma AdvanceKept(s: State, t: TaskId, issue: Etag)
    requires t in s.tasks && s.tasks[t].pc.Keep?
    ensures var pc, h := s.tasks[t].pc, s.tasks[t].host;
            Advance(s, t, issue) == Goto(SetEntry(s, h, Some(Bytes(pc.doc, pc.tag))), t, Got(pc.head, pc.doc))
  {
    hide AdvanceWrite;
  }

  lemma AdvanceTrusted(s: State, t: TaskId, issue: Etag, e: Option<Etag>, b: Doc)
    requires t in s.tasks && s.tasks[t].pc == GetEntry(e)
    requires HostOf(s, s.tasks[t].host).entry == Some(Bytes(b, None))
    ensures Advance(s, t, issue) == Goto(s, t, Got(e, b))
  {
    hide AdvanceWrite;
  }

  lemma AdvanceLoaded(s: State, t: TaskId, issue: Etag)
    requires t in s.tasks && s.tasks[t].pc.Got? && Writer(s.tasks[t].op)
    requires Decide(s.tasks[t].op, Some(s.tasks[t].pc.doc)).Write?
    ensures var k, s' := s.tasks[t], Advance(s, t, issue);
            && s' == Goto(s, t, Decided(k.op, k.pc.head, Some(k.pc.doc))).(hosts := s'.hosts)
            && s'.hosts.Keys <= s.hosts.Keys + {k.host}
            && (forall g :: g in s.hosts && g != k.host ==> g in s'.hosts && s'.hosts[g] == s.hosts[g])
  {
    hide AdvanceWrite;
  }

  /** From the start of a call to the point where it knows the etag; an absent object is decided
      at once. */
  lemma SoloHead(s: State, t: TaskId, issue: Etag, n: nat)
    requires n >= 3 && s.past != [] && t in s.tasks && Fresh(s.past, issue)
    requires s.tasks[t].pc == HeadEntry && (Now(s).Version? || Writer(s.tasks[t].op))
    requires HostOf(s, s.tasks[t].host).entry != Some(Missing)
    requires Now(s).Version? && HostOf(s, s.tasks[t].host).memo.Some?
             ==> HostOf(s, s.tasks[t].host).memo.value.etag != Now(s).etag
    ensures Exec(s, Runs(t, issue, n))
         == Exec(Goto(s, t, if Now(s).Gone? then Decided(s.tasks[t].op, None, None)
                            else GetEntry(Some(Now(s).etag))), Runs(t, issue, n - 3))
  {
    hide Exec, Decided, Fresh, Advance, Runs;
    assert s == Goto(s, t, HeadEntry) by { assert s.tasks == Goto(s, t, HeadEntry).tasks; }
    var headed := Headed(EtagOf(Now(s)));
    AdvanceEntry(s, t, issue);
    Hop(s, t, issue, n, HeadEntry, HeadInner);
    AdvanceInner(Goto(s, t, HeadInner), t, issue);
    Hop(s, t, issue, n - 1, HeadInner, headed);
    AdvanceHeaded(Goto(s, t, headed), t, issue);
    var next := if Now(s).Gone? then Decided(s.tasks[t].op, None, None) else GetEntry(Some(Now(s).etag));
    Hop(s, t, issue, n - 2, headed, next);
  }

  /** The accepted write, as the last step. */
  lemma {:induction false} SoloPut(s: State, t: TaskId, issue: Etag)
    requires t in s.tasks && Fresh(s.past, issue) && s.tasks[t].pc.Put? && s.tasks[t].pc.head == EtagOf(Now(s))
    ensures var s' := Exec(s, Runs(t, issue, 1));
            && s'.past == s.past + [Version(s.tasks[t].pc.next, issue, t, s.tasks[t].op)]
            && s'.hosts == s.hosts && s'.tasks.Keys == s.tasks.Keys && s'.tasks[t].host == s.tasks[t].host
            && (forall u :: u in s.tasks && u != t ==> s'.tasks[u] == s.tasks[u])
  {
    hide AdvanceRead;
    RunsStep(s, t, issue, 1);
  }

  /** The call has written `doc` and touched no other call and no other host. */
  ghost predicate Committed(s: State, s': State, t: TaskId, h: HostId, op: Op, doc: Doc, issue: Etag) {
    && s'.past == s.past + [Version(doc, issue, t, op)]
    && s'.tasks.Keys == s.tasks.Keys + {t} && s'.tasks[t].host == h
    && (forall u :: u in s.tasks && u != t ==> s'.tasks[u] == s.tasks[u])
    && s'.hosts.Keys <= s.hosts.Keys + {h}
    && (forall g :: g in s.hosts && g != h ==> g in s'.hosts && s'.hosts[g] == s.hosts[g])
  }

  lemma CommittedSinceBegin(s: State, s': State, t: TaskId, k: Task, p: Pc, h: HostId, op: Op, doc: Doc, issue: Etag)
    requires t !in s.tasks && Committed(Goto(s.(tasks := s.tasks[t := k]), t, p), s', t, h, op, doc, issue)
    ensures Committed(s, s', t, h, op, doc, issue)
  {
  }

  /** The calls that read an uncached body, up to keeping it. */
  lemma SoloBody(s: State, t: TaskId, issue: Etag, n: nat)
    requires n >= 3 && s.past != [] && Now(s).Version? && Fresh(s.past, issue)
    requires t in s.tasks && s.tasks[t].host !in s.hosts
    ensures var e := Some(Now(s).etag);
            Exec(Goto(s, t, GetEntry(e)), Runs(t, issue, n)) == Exec(Goto(s, t, Keep(e, Now(s).doc, e)), Runs(t, issue, n - 3))
  {
    hide Exec, Advance, Runs, Fresh;
    var v := Now(s);
    var e := Some(v.etag);
    AdvanceTagHead(Goto(s, t, GetEntry(e)), t, issue);
    Hop(s, t, issue, n, GetEntry(e), TagHead(e));
    AdvanceGetInner(Goto(s, t, TagHead(e)), t, issue);
    Hop(s, t, issue, n - 1, TagHead(e), GetInner(e, e));
    AdvanceKeep(Goto(s, t, GetInner(e, e)), t, issue);
    Hop(s, t, issue, n - 2, GetInner(e, e), Keep(e, v.doc, e));
  }

  /** From a loaded body to the write. */
  lemma {:induction false} SoloCommit(s: State, t: TaskId, h: HostId, op: Op, issue: Etag, d: Doc, e: Option<Etag>)
    requires s.past != [] && Decide(op, Some(d)).Write? && Fresh(s.past, issue) && e.Some? && EtagOf(Now(s)) == e
    requires t in s.tasks && s.tasks[t].host == h && s.tasks[t].op == op && s.tasks[t].pc == Got(e, d) && Writer(op)
    ensures Committed(s, Exec(s, Runs(t, issue, 2)), t, h, op, Decide(op, Some(d)).next, issue)
  {
    hide Exec, Advance, Runs, Decide, Fresh;
    RunsStep(s, t, issue, 2);
    var s1 := Advance(s, t, issue);
    AdvanceLoaded(s, t, issue);
    SoloPut(s1, t, issue);
  }

  /** The read of the body and the write, from a host with empty caches. */
  lemma {:induction false} SoloLoad(s: State, t: TaskId, h: HostId, op: Op, issue: Etag)
    requires s.past != [] && Now(s).Version? && Decide(op, Some(Now(s).doc)).Write? && Fresh(s.past, issue)
    requires t in s.tasks && h !in s.hosts && Writer(op)
    requires s.tasks[t].host == h && s.tasks[t].op == op
    ensures Committed(s, Exec(Goto(s, t, GetEntry(Some(Now(s).etag))), Runs(t, issue, 6)), t, h, op,
                      Decide(op, Some(Now(s).doc)).next, issue)
  {
    hide Exec, Advance, Runs, Decide, Fresh;
    var v := Now(s);
    var e := Some(v.etag);
    SoloBody(s, t, issue, 6);
    var s3 := Goto(s, t, Keep(e, v.doc, e));
    RunsStep(s3, t, issue, 3);
    AdvanceKept(s3, t, issue);
    SoloCommit(Advance(s3, t, issue), t, h, op, issue, v.doc, e);
  }

  /** A call from a host with empty caches, run alone, commits its decision on the present
      document: the protocol is not lossless for want of writing. */
  lemma SoloCall(s: State, t: TaskId, h: HostId, op: Op, issue: Etag) returns (evs: seq<Event>)
    requires s.past != [] && Writer(op) && Decide(op, DocOf(Now(s))).Write?
    requires t !in s.tasks && h !in s.hosts && Fresh(s.past, issue)
    ensures Begins(evs, op, op) && evs == Call(t, h, op, issue, if Now(s).Gone? then 4 else 9)
    ensures Committed(s, Exec(s, evs), t, h, op, Decide(op, DocOf(Now(s))).next, issue)
    ensures LockIsFree(s, h) ==> Locked(s, evs)
  {
    hide Exec, Advance, Runs, Decide, Fresh, LockIsFree, Locked;
    var v := Now(s);
    var n := if v.Gone? then 4 else 9;
    evs := Call(t, h, op, issue, n);
    BeginStep(s, t, h, op, issue, n);
    var s0 := s.(tasks := s.tasks[t := Task(h, op, |s.past| - 1, 0, HeadEntry)]);
    SoloHead(s0, t, issue, n);
    if v.Gone? {
      SoloPut(Goto(s0, t, Decided(op, None, None)), t, issue);
    } else {
      SoloLoad(s0, t, h, op, issue);
    }
  }

  /** A call on a host that holds an untagged body writes from that body. */
  lemma TrustedCall(s: State, t: TaskId, h: HostId, b: Doc, op: Op, issue: Etag) returns (evs: seq<Event>)
    requires s.past != [] && t !in s.tasks && Fresh(s.past, issue) && Now(s).Version? && Writer(op)
    requires h in s.hosts && s.hosts[h].entry == Some(Bytes(b, None)) && Decide(op, Some(b)).Write?
    requires s.hosts[h].memo.Some? ==> s.hosts[h].memo.value.etag != Now(s).etag
    ensures Begins(evs, op, op)
    ensures Committed(s, Exec(s, evs), t, h, op, Decide(op, Some(b)).next, issue)
    ensures LockIsFree(s, h) ==> Locked(s, evs)
  {
    hide Exec, Advance, Runs, Decide, Fresh, Committed, LockIsFree, Locked;
    var e := Some(Now(s).etag);
    evs := Call(t, h, op, issue, 6);
    BeginStep(s, t, h, op, issue, 6);
    var s0 := s.(tasks := s.tasks[t := Task(h, op, |s.past| - 1, 0, HeadEntry)]);
    SoloHead(s0, t, issue, 6);
    AdvanceTrusted(Goto(s0, t, GetEntry(e)), t, issue, e, b);
    Hop(s0, t, issue, 3, GetEntry(e), Got(e, b));
    SoloCommit(Goto(s0, t, Got(e, b)), t, h, op, issue, b, e);
    CommittedSinceBegin(s, Exec(s, evs), t, s0.tasks[t], Got(e, b), h, op, Decide(op, Some(b)).next, issue);
  }

  // ---- Calls that only read ----------------------------------------------------------------

  lemma AdvanceGot(s: State, t: TaskId, issue: Etag)
    requires t in s.tasks && s.tasks[t].pc.Got?
    ensures var k, h, s' := s.tasks[t], s.tasks[t].host, Advance(s, t, issue);
            && s'.past == s.past && s'.tasks == s.tasks[t := k.(pc := AfterGet(k.op, k.pc.head, k.pc.doc))]
            && HostOf(s', h).entry == HostOf(s, h).entry
            && HostOf(s', h).memo == (if Memoises(k.op, k.pc.head, k.pc.doc)
                                      then Some(Memo(k.pc.doc, k.pc.head.value)) else HostOf(s, h).memo)
  {
    hide AdvanceWrite, AfterGet;
  }

  /** Any call from a host with empty caches, run alone on a stored object up to its answer: it
      has the present body, keeps it under its etag, and goes where that body sends it. */
  lemma SoloAnswer(s: State, t: TaskId, h: HostId, op: Op, issue: Etag) returns (evs: seq<Event>, s': State)
    requires s.past != [] && Now(s).Version? && t !in s.tasks && h !in s.hosts && Fresh(s.past, issue)
    requires !op.Delete? && !op.Save?
    ensures s' == Exec(s, evs) && s'.past == s.past && Begins(evs, op, op)
    ensures t in s'.tasks && s'.tasks[t].op == op && s'.tasks[t].host == h && s'.tasks[t].start == |s.past| - 1
    ensures s'.tasks[t].pc == AfterGet(op, Some(Now(s).etag), Now(s).doc)
    ensures HostOf(s', h) == Host(Some(Bytes(Now(s).doc, Some(Now(s).etag))),
                                  if Memoises(op, Some(Now(s).etag), Now(s).doc)
                                  then Some(Memo(Now(s).doc, Now(s).etag)) else None)
  {
    hide Exec, Advance, Runs, Fresh, AfterGet, Memoises;
    var v, e := Now(s), Some(Now(s).etag);
    evs := Call(t, h, op, issue, 8);
    BeginStep(s, t, h, op, issue, 8);
    var s0 := s.(tasks := s.tasks[t := Task(h, op, |s.past| - 1, 0, HeadEntry)]);
    SoloHead(s0, t, issue, 8);
    SoloBody(s0, t, issue, 5);
    var s1 := Goto(s0, t, Keep(e, v.doc, e));
    RunsStep(s1, t, issue, 2);
    AdvanceKept(s1, t, issue);
    var s2 := Advance(s1, t, issue);
    RunsStep(s2, t, issue, 1);
    AdvanceGot(s2, t, issue);
    s' := Advance(s2, t, issue);
    RunsNone(s', t, issue);
  }

  /** A `get` run alone returns the stored log if it is of this schema and remembers it under its
      etag; otherwise it fails and remembers nothing. */
  lemma SoloGet(s: State, t: TaskId, h: HostId, issue: Etag) returns (evs: seq<Event>)
    requires s.past != [] && Now(s).Version? && t !in s.tasks && h !in s.hosts && Fresh(s.past, issue)
    ensures var s' := Exec(s, evs);
            && s'.past == s.past && t in s'.tasks && s'.tasks[t].op.Get?
            && s'.tasks[t].pc == Done(if GoodLog(Now(s).doc) then Read(Now(s).doc) else Failed)
            && HostOf(s', h).memo == if GoodLog(Now(s).doc) then Some(Memo(Now(s).doc, Now(s).etag)) else None
  {
    hide Exec, Fresh;
    var s';
    evs, s' := SoloAnswer(s, t, h, Get, issue);
  }

  /** A control-state `load` run alone returns the stored envelope. */
  lemma SoloLoadCall(s: State, t: TaskId, h: HostId, suite: string, issue: Etag) returns (evs: seq<Event>)
    requires s.past != [] && Now(s).Version? && t !in s.tasks && h !in s.hosts && Fresh(s.past, issue)
    ensures var s' := Exec(s, evs);
            && s'.past == s.past && t in s'.tasks && s'.tasks[t].op == Load(suite)
            && s'.tasks[t].pc == Done(Read(Now(s).doc))
  {
    hide Exec, Fresh;
    var s';
    evs, s' := SoloAnswer(s, t, h, Load(suite), issue);
  }

  /** A thread operation that finds nothing to do answers so, and one on anything that is not a
      log of this schema is refused; neither writes. */
  lemma SoloSettles(s: State, t: TaskId, h: HostId, op: Op, issue: Etag) returns (evs: seq<Event>)
    requires s.past != [] && Now(s).Version? && t !in s.tasks && h !in s.hosts && Fresh(s.past, issue)
    requires WritesLogs(op) && (GoodLog(Now(s).doc) ==> NothingToDo(op, Now(s).doc.log))
    ensures var s' := Exec(s, evs);
            && s'.past == s.past && t in s'.tasks && s'.tasks[t].op == op && s'.tasks[t].pc.Done?
            && (if GoodLog(Now(s).doc) then s'.tasks[t].pc.reply.Unchanged? else s'.tasks[t].pc.reply.Failed?)
  {
    hide Exec, Fresh;
    var s';
    evs, s' := SoloAnswer(s, t, h, op, issue);
    ForeignDocIsRefused(op, Some(Now(s).doc));
    if GoodLog(Now(s).doc) { DecisionIsPromised(op, Some(Now(s).doc)); }
    hide Decide, NothingToDo;
  }
}
