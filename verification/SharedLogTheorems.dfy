/** What the shared log promises over whole runs, and exactly when it does not. */
module SharedLogTheorems {
  import opened Text
  import opened ThreadTypes
  import opened SharedLog
  import opened SharedLogInvariant

  // ---- The calls of a run ----------------------------------------------------------------

  /** Every call that begins satisfies `p`. */
  ghost predicate Calls(evs: seq<Event>, p: Op -> bool) {
    forall i :: 0 <= i < |evs| && evs[i].Begin? ==> p(evs[i].op)
  }

  function OpsOf(kind: Kind): Op -> bool {
    op => OpOf(kind, op)
  }

  lemma CallsTail(evs: seq<Event>, p: Op -> bool)
    requires evs != [] && Calls(evs, p)
    ensures Calls(evs[1..], p) && (evs[0].Begin? ==> p(evs[0].op))
  {
    assert forall i :: 0 <= i < |evs[1..]| ==> evs[1..][i] == evs[i + 1];
  }

  lemma CallsConcat(a: seq<Event>, b: seq<Event>, p: Op -> bool)
    requires Calls(a, p) && Calls(b, p)
    ensures Calls(a + b, p)
  {
  }

  lemma CallsWeaken(evs: seq<Event>, p: Op -> bool, q: Op -> bool)
    requires Calls(evs, p) && forall op :: p(op) ==> q(op)
    ensures Calls(evs, q)
  {
  }

  ghost predicate CalledBy(s: State, p: Op -> bool) {
    && (forall t :: t in s.tasks ==> p(s.tasks[t].op))
    && (forall i :: 0 <= i < |s.past| && s.past[i].Version? ==> p(s.past[i].op))
  }

  lemma OpsOfStep(s: State, ev: Event, p: Op -> bool)
    requires CalledBy(s, p) && (ev.Begin? ==> p(ev.op))
    ensures CalledBy(Step(s, ev), p)
  {
    hide AdvanceRead, AdvanceWrite;
  }

  /** Whatever holds of every call that begins holds of every version's operation. */
  lemma {:induction false} OpsOfRun(s: State, evs: seq<Event>, p: Op -> bool)
    requires CalledBy(s, p) && Calls(evs, p)
    ensures CalledBy(Exec(s, evs), p)
    decreases |evs|
  {
    if evs != [] {
      CallsTail(evs, p);
      OpsOfStep(s, evs[0], p);
      hide CalledBy;
      OpsOfRun(Step(s, evs[0]), evs[1..], p);
    }
  }

  // ---- Runs ------------------------------------------------------------------------------

  /** No state of the run, its ends included, has an untagged body on any host. */
  ghost predicate TaggedRun(s: State, evs: seq<Event>)
    decreases |evs|
  {
    Tagged(s) && (evs != [] ==> TaggedRun(Step(s, evs[0]), evs[1..]))
  }

  lemma {:induction false} RunOk(s: State, evs: seq<Event>)
    requires Inv(s) && TaggedRun(s, evs)
    ensures Inv(Exec(s, evs))
    decreases |evs|
  {
    if evs != [] {
      StepOk(s, evs[0]);
      RunOk(Step(s, evs[0]), evs[1..]);
    }
  }

  lemma {:induction false} HistoryGrows(s: State, evs: seq<Event>)
    ensures s.past <= Exec(s, evs).past
    decreases |evs|
  {
    if evs != [] { HistoryGrows(Step(s, evs[0]), evs[1..]); }
  }

  /** No lost update, over every interleaving of any number of hosts and calls: each version
      is its writer's operation applied to the version it replaced, and a call that was
      acknowledged is the writer of a version. */
  lemma NoLostUpdate(evs: seq<Event>, t: TaskId)
    requires TaggedRun(INIT, evs)
    ensures var s := Exec(INIT, evs);
            && Lossless(s.past)
            && (t in s.tasks && s.tasks[t].pc.Done? && s.tasks[t].pc.reply.Acked? ==>
                  var v := s.tasks[t].pc.reply.version;
                  && 1 <= v < |s.past| && s.past[v].Version?
                  && s.past[v].writer == t && s.past[v].op == s.tasks[t].op
                  && LosslessAt(s.past[v - 1], s.past[v]))
  {
    RunOk(INIT, evs);
    HistoryGrows(INIT, evs);
  }

  /** A `get` returns a document that the store held at some instant of the call, whichever
      of the two caches served it. */
  lemma GetIsLinearizable(evs: seq<Event>, t: TaskId)
    requires TaggedRun(INIT, evs)
    requires var s := Exec(INIT, evs); t in s.tasks && s.tasks[t].pc.Done? && s.tasks[t].pc.reply.Read?
    ensures var s := Exec(INIT, evs);
            HeldSince(s.past, s.tasks[t].start, s.tasks[t].pc.reply.doc)
  {
    RunOk(INIT, evs);
  }

  // ---- Exactly one write per call, unless an acknowledgement is lost ------------------------

  ghost predicate WrittenOnlyAt(past: seq<Version>, t: TaskId, at: Option<nat>) {
    forall i :: 0 <= i < |past| && past[i].Version? && past[i].writer == t ==> at == Some(i)
  }

  ghost function CommitOf(pc: Pc): Option<nat> {
    if pc.Kept? || pc.Note? || pc.SaveEntry? then Some(pc.version)
    else if pc.Done? && pc.reply.Acked? then Some(pc.reply.version)
    else None
  }

  ghost predicate OnceOnly(s: State, t: TaskId) {
    if t !in s.tasks then WrittenOnlyAt(s.past, t, None)
    else if s.tasks[t].pc.Done? then exists at :: WrittenOnlyAt(s.past, t, at)
    else WrittenOnlyAt(s.past, t, CommitOf(s.tasks[t].pc))
  }

  lemma OnceAdvance(s: State, t: TaskId, issue: Etag)
    requires t in s.tasks && OnceOnly(s, t) && !s.tasks[t].pc.Done?
    ensures OnceOnly(Advance(s, t, issue), t)
  {
    var s' := Advance(s, t, issue);
    var k, k' := s.tasks[t], s'.tasks[t];
    if !k.pc.DeleteInner? && Commit(s, t, issue).Some? {
      assert WrittenOnlyAt(s'.past, t, Some(|s.past|));
    } else {
      assert WrittenOnlyAt(s'.past, t, CommitOf(k.pc));
      assert !k'.pc.Done? ==> CommitOf(k'.pc) == CommitOf(k.pc);
    }
  }

  /** Events of other tasks write no version of `t`. */
  lemma OnceKept(s: State, s': State, t: TaskId)
    requires OnceOnly(s, t) && s.past <= s'.past
    requires t in s'.tasks <==> t in s.tasks || (t in s'.tasks && CommitOf(s'.tasks[t].pc) == None && !s'.tasks[t].pc.Done?)
    requires t in s.tasks ==> t in s'.tasks && s'.tasks[t] == s.tasks[t]
    requires forall i :: |s.past| <= i < |s'.past| && s'.past[i].Version? ==> s'.past[i].writer != t
    ensures OnceOnly(s', t)
  {
    if t in s.tasks && s.tasks[t].pc.Done? {
      var at :| WrittenOnlyAt(s.past, t, at);
      assert WrittenOnlyAt(s'.past, t, at);
    }
  }

  lemma OnceStep(s: State, ev: Event, t: TaskId)
    requires OnceOnly(s, t) && !(ev.LoseAck? && ev.task == t)
    ensures OnceOnly(Step(s, ev), t)
  {
    var s' := Step(s, ev);
    if ev.Run? && ev.task in s.tasks && Fresh(s.past, ev.issue) {
      if ev.task == t && !s.tasks[t].pc.Done? {
        OnceAdvance(s, t, ev.issue);
      } else {
        OnceKept(s, s', t);
      }
    } else if ev.Retry? && ev.task == t && t in s.tasks && !s.tasks[t].pc.Done? {
      assert CommitOf(s'.tasks[t].pc) == CommitOf(s.tasks[t].pc);
    } else if ev.Abort? && ev.task == t && t in s.tasks && !s.tasks[t].pc.Done? {
      assert WrittenOnlyAt(s'.past, t, CommitOf(s.tasks[t].pc));
    } else {
      OnceKept(s, s', t);
    }
  }

  /** A call writes at most one version, whatever else goes wrong, as long as none of its own
      acknowledgements is lost. */
  lemma {:induction false} WritesAtMostOnce(s: State, evs: seq<Event>, t: TaskId)
    requires OnceOnly(s, t)
    requires forall i :: 0 <= i < |evs| ==> !(evs[i].LoseAck? && evs[i].task == t)
    ensures OnceOnly(Exec(s, evs), t)
    ensures var past := Exec(s, evs).past;
            forall i, j :: 0 <= i < j < |past| && past[i].Version? && past[j].Version?
              ==> !(past[i].writer == t && past[j].writer == t)
    decreases |evs|
  {
    if evs != [] {
      OnceStep(s, evs[0], t);
      assert forall i :: 0 <= i < |evs[1..]| ==> evs[1..][i] == evs[i + 1];
      WritesAtMostOnce(Step(s, evs[0]), evs[1..], t);
    } else {
      var past := s.past;
      var at :| WrittenOnlyAt(past, t, at);
    }
  }

  // ---- Untagged bodies -------------------------------------------------------------------

  predicate TaggedHost(h: Host) {
    h.entry.Some? && h.entry.value.Bytes? ==> h.entry.value.tag.Some?
  }

  lemma EntryAfterRead(s: State, t: TaskId)
    requires t in s.tasks && Reading(s.tasks[t].pc) && TaggedHost(HostOf(s, s.tasks[t].host))
    requires s.tasks[t].pc.Keep? ==> s.tasks[t].pc.tag.Some?
    ensures TaggedHost(HostOf(AdvanceRead(s, t), s.tasks[t].host))
  {
    hide AfterHead, AfterGet, Decided;
  }

  lemma EntryAfterWrite(s: State, t: TaskId, issue: Etag)
    requires t in s.tasks && !Reading(s.tasks[t].pc) && !s.tasks[t].pc.SaveEntry?
    requires TaggedHost(HostOf(s, s.tasks[t].host))
    ensures TaggedHost(HostOf(AdvanceWrite(s, t, issue), s.tasks[t].host))
  {
  }

  /** Only keeping a body under no etag, or an unconditional `save`, leaves an untagged one. */
  lemma EntryAfter(s: State, t: TaskId, issue: Etag)
    requires Tagged(s) && t in s.tasks
    requires !s.tasks[t].pc.SaveEntry? && (s.tasks[t].pc.Keep? ==> s.tasks[t].pc.tag.Some?)
    ensures Tagged(Advance(s, t, issue))
  {
    var h, s' := s.tasks[t].host, Advance(s, t, issue);
    if Reading(s.tasks[t].pc) { EntryAfterRead(s, t); } else { EntryAfterWrite(s, t, issue); }
    hide AdvanceRead, AdvanceWrite;
    assert forall g :: g in s'.hosts && g != h ==> g in s.hosts && s'.hosts[g] == s.hosts[g];
  }

  // ---- Runs that never tag a body with nothing -------------------------------------------

  predicate CarefulCall(s: State, op: Op) {
    !op.Delete? && !op.Save? && (op.Get? ==> Now(s).Version?)
  }

  /** A caller's condition: nothing is deleted or saved unconditionally, and `get` is not called
      before the object exists. Appends, title and preflight writes, and control-state loads and
      mutations are free. */
  ghost predicate Careful(s: State, evs: seq<Event>)
    decreases |evs|
  {
    evs != [] ==>
      && (evs[0].Begin? ==> CarefulCall(s, evs[0].op))
      && Careful(Step(s, evs[0]), evs[1..])
  }

  ghost predicate QuietTask(s: State, k: Task, base: nat) {
    && base <= k.start + 1
    && FirstPc(k.op).HeadEntry? && !k.pc.DeleteInner? && !k.pc.SaveInner? && !k.pc.SaveEntry?
    && (k.op.Get? ==> Now(s).Version?)
    && (k.pc.GetInner? || k.pc.Keep? ==> k.pc.tag.Some?)
  }

  /** The object has been there ever since version `base`, and no call under way can take it
      away or keep a body without an etag. */
  ghost predicate Quiet(s: State, base: nat) {
    && Tagged(s)
    && 1 <= base <= |s.past|
    && (forall i :: base <= i < |s.past| ==> s.past[i].Version?)
    && (forall t :: t in s.tasks ==> s.tasks[t].pc.Done? || QuietTask(s, s.tasks[t], base))
  }

  /** An etag seen since `base` means that the object is there. */
  lemma StillThere(s: State, k: Task, base: nat, e: Etag)
    requires 1 <= base <= |s.past| && base <= k.start + 1
    requires forall i :: base <= i < |s.past| ==> s.past[i].Version?
    requires HeadSince(s.past, k.start, Some(e))
    ensures Now(s).Version?
  {
    var i: nat :| k.start <= i && TagAt(s.past, i, e);
  }

  lemma QuietOther(s: State, s': State, k: Task, base: nat)
    requires QuietTask(s, k, base) && (Now(s).Version? ==> Now(s').Version?)
    ensures QuietTask(s', k, base)
  {
  }

  /** The history of a step that does not delete. */
  lemma QuietPast(s: State, t: TaskId, issue: Etag, base: nat)
    requires 1 <= base <= |s.past| && t in s.tasks && !s.tasks[t].pc.DeleteInner?
    requires forall i :: base <= i < |s.past| ==> s.past[i].Version?
    ensures var past := Advance(s, t, issue).past;
            base <= |past| && forall i :: base <= i < |past| ==> past[i].Version?
    ensures Now(s).Version? ==> Now(Advance(s, t, issue)).Version?
  {
    hide AdvanceRead, AdvanceWrite;
  }

  lemma QuietTaskStep(s: State, t: TaskId, issue: Etag, base: nat)
    requires t in s.tasks && QuietTask(s, s.tasks[t], base) && !s.tasks[t].pc.Done?
    requires s.tasks[t].pc.TagHead? ==> Now(s).Version?
    ensures QuietTask(Advance(s, t, issue), Advance(s, t, issue).tasks[t], base)
  {
    hide AfterHead, AfterGet, Decided;
    if Reading(s.tasks[t].pc) {
      hide AdvanceWrite;
    } else {
      hide AdvanceRead;
    }
  }

  lemma {:induction false} QuietAdvance(s: State, t: TaskId, issue: Etag, base: nat)
    requires Inv(s) && Quiet(s, base) && t in s.tasks && !s.tasks[t].pc.Done?
    ensures Quiet(Advance(s, t, issue), base)
  {
    var s' := Advance(s, t, issue);
    var k := s.tasks[t];
    assert QuietTask(s, k, base) && PcOk(s.past, t, k);
    if k.pc.TagHead? && k.pc.head.Some? { StillThere(s, k, base, k.pc.head.value); }
    assert k.pc.TagHead? ==> Now(s).Version?;
    hide Inv, PcOk, Advance;
    QuietTaskStep(s, t, issue, base);
    EntryAfter(s, t, issue);
    QuietPast(s, t, issue, base);
    hide Tagged;
    forall u | u in s.tasks && u != t && !s.tasks[u].pc.Done? ensures QuietTask(s', s.tasks[u], base) {
      QuietOther(s, s', s.tasks[u], base);
    }
    hide QuietTask;
  }

  lemma DoneStays(s: State, t: TaskId, issue: Etag)
    requires t in s.tasks && s.tasks[t].pc.Done?
    ensures Advance(s, t, issue) == s
  {
    hide AdvanceRead;
  }

  lemma QuietLoseAck(s: State, ev: Event, base: nat)
    requires Quiet(s, base) && ev.LoseAck?
    ensures Quiet(Step(s, ev), base)
  {
    var s' := Step(s, ev);
    if s' != s {
      assert QuietTask(s, s.tasks[ev.task], base);
      forall u | u in s.tasks && !s.tasks[u].pc.Done? ensures QuietTask(s', s.tasks[u], base) {
        QuietOther(s, s', s.tasks[u], base);
      }
    }
  }

  lemma QuietLocal(s: State, ev: Event, base: nat)
    requires Quiet(s, base) && !ev.Run? && !ev.LoseAck? && (ev.Begin? ==> CarefulCall(s, ev.op))
    ensures Quiet(Step(s, ev), base)
  {
    assert ev.task in s.tasks ==> s.tasks[ev.task].pc.Done? || QuietTask(s, s.tasks[ev.task], base);
  }

  lemma {:induction false} QuietStep(s: State, ev: Event, base: nat)
    requires Inv(s) && Quiet(s, base) && (ev.Begin? ==> CarefulCall(s, ev.op))
    ensures Quiet(Step(s, ev), base)
  {
    hide Inv, Advance;
    if ev.Run? {
      if ev.task in s.tasks && Fresh(s.past, ev.issue) {
        if s.tasks[ev.task].pc.Done? { DoneStays(s, ev.task, ev.issue); } else { QuietAdvance(s, ev.task, ev.issue, base); }
      }
    } else if ev.LoseAck? {
      QuietLoseAck(s, ev, base);
    } else {
      QuietLocal(s, ev, base);
    }
  }

  lemma {:induction false} CarefulRunOk(s: State, evs: seq<Event>, base: nat)
    requires Inv(s) && Quiet(s, base) && Careful(s, evs)
    ensures Inv(Exec(s, evs)) && Quiet(Exec(s, evs), base) && TaggedRun(s, evs)
    decreases |evs|
  {
    if evs != [] {
      StepOk(s, evs[0]);
      QuietStep(s, evs[0], base);
      CarefulRunOk(Step(s, evs[0]), evs[1..], base);
    }
  }

  /** Careful callers lose nothing, with both caches in place and peers writing at will. */
  lemma CarefulCallersLoseNothing(evs: seq<Event>)
    requires Careful(INIT, evs)
    ensures TaggedRun(INIT, evs)
    ensures Lossless(Exec(INIT, evs).past)
  {
    CarefulRunOk(INIT, evs, 1);
  }
}
