/** What holds of every document and etag in the stack even when updates are lost. */
module KnownDocs {
  import opened Text
  import opened ThreadTypes
  import opened SharedLog
  import opened SharedLogInvariant
  import opened SharedLogTheorems

  ghost predicate Issued(past: seq<Version>, e: Option<Etag>) {
    e.Some? ==> !Fresh(past, e.value)
  }

  ghost predicate KnownHost(kind: Kind, past: seq<Version>, h: Host) {
    && (h.entry.Some? && h.entry.value.Bytes? ==> GoodDoc(kind, h.entry.value.doc))
    && (h.memo.Some? ==> GoodDoc(kind, h.memo.value.doc) && !Fresh(past, h.memo.value.etag))
  }

  ghost predicate KnownTask(kind: Kind, past: seq<Version>, k: Task) {
    && OpOf(kind, k.op)
    && match k.pc
       case Headed(head) => Issued(past, head)
       case GetEntry(head) => Issued(past, head)
       case CheckTag(head, d, _) => Issued(past, head) && GoodDoc(kind, d)
       case TagHead(head) => Issued(past, head)
       case GetInner(head, _) => Issued(past, head)
       case Keep(head, d, _) => Issued(past, head) && GoodDoc(kind, d)
       case Got(head, d) => Issued(past, head) && GoodDoc(kind, d)
       case Put(_, _, next, _) => GoodDoc(kind, next)
       case Kept(next, e, _, _) => GoodDoc(kind, next) && !Fresh(past, e)
       case Note(next, e, _, _) => GoodDoc(kind, next) && !Fresh(past, e)
       case SaveEntry(d, _) => GoodDoc(kind, d)
       case _ => true
  }

  /** Every document, wherever it is held, is one that a store of this kind writes. */
  ghost predicate Known(kind: Kind, s: State) {
    && s.past != [] && UniqueEtags(s.past)
    && (forall i :: 0 <= i < |s.past| && s.past[i].Version? ==> GoodDoc(kind, s.past[i].doc))
    && (forall h :: h in s.hosts ==> KnownHost(kind, s.past, s.hosts[h]))
    && (forall t :: t in s.tasks ==> KnownTask(kind, s.past, s.tasks[t]))
  }

  lemma IssuedExtends(kind: Kind, past: seq<Version>, past': seq<Version>)
    requires past <= past'
    ensures forall e :: !Fresh(past, e) ==> !Fresh(past', e)
    ensures forall h :: KnownHost(kind, past, h) ==> KnownHost(kind, past', h)
    ensures forall k :: KnownTask(kind, past, k) ==> KnownTask(kind, past', k)
  {
    forall e | !Fresh(past, e) ensures !Fresh(past', e) {
      var i :| 0 <= i < |past| && past[i].Version? && past[i].etag == e;
      assert past'[i].etag == e;
    }
    hide GoodDoc, Fresh;
  }

  lemma KnownGot(kind: Kind, s: State, t: TaskId)
    requires t in s.tasks && s.tasks[t].pc.Got?
    requires KnownTask(kind, s.past, s.tasks[t]) && KnownHost(kind, s.past, HostOf(s, s.tasks[t].host))
    ensures KnownTask(kind, s.past, AdvanceRead(s, t).tasks[t])
    ensures KnownHost(kind, s.past, HostOf(AdvanceRead(s, t), s.tasks[t].host))
  {
    hide Fresh, Decide, AfterHead, GoodDoc;
    var k := s.tasks[t];
    forall base: Option<Doc> | Decide(k.op, base).Write? ensures GoodDoc(kind, Decide(k.op, base).next) {
      WritesGoodDoc(kind, k.op, base);
    }
  }

  lemma KnownRead(kind: Kind, s: State, t: TaskId)
    requires t in s.tasks && Reading(s.tasks[t].pc) && s.past != []
    requires Now(s).Version? ==> GoodDoc(kind, Now(s).doc) && !Fresh(s.past, Now(s).etag)
    requires KnownTask(kind, s.past, s.tasks[t]) && KnownHost(kind, s.past, HostOf(s, s.tasks[t].host))
    ensures KnownTask(kind, s.past, AdvanceRead(s, t).tasks[t])
    ensures KnownHost(kind, s.past, HostOf(AdvanceRead(s, t), s.tasks[t].host))
  {
    hide Fresh, Decide, GoodDoc;
    var k := s.tasks[t];
    forall base: Option<Doc> | Decide(k.op, base).Write? ensures GoodDoc(kind, Decide(k.op, base).next) {
      WritesGoodDoc(kind, k.op, base);
    }
    if k.pc.Got? {
      KnownGot(kind, s, t);
    } else {
      hide AfterGet;
    }
  }

  lemma KnownSettled(kind: Kind, s: State, t: TaskId, issue: Etag)
    requires t in s.tasks && !Reading(s.tasks[t].pc) && Commit(s, t, issue).None?
    requires KnownTask(kind, s.past, s.tasks[t]) && KnownHost(kind, s.past, HostOf(s, s.tasks[t].host))
    ensures KnownHost(kind, s.past, HostOf(AdvanceWrite(s, t, issue), s.tasks[t].host))
  {
    hide Fresh, GoodDoc;
  }

  lemma KnownSettle(kind: Kind, s: State, t: TaskId, issue: Etag)
    requires t in s.tasks && !Reading(s.tasks[t].pc) && Commit(s, t, issue).None?
    requires KnownTask(kind, s.past, s.tasks[t]) && KnownHost(kind, s.past, HostOf(s, s.tasks[t].host))
    ensures KnownTask(kind, s.past, AdvanceWrite(s, t, issue).tasks[t])
    ensures KnownHost(kind, s.past, HostOf(AdvanceWrite(s, t, issue), s.tasks[t].host))
  {
    hide Fresh, GoodDoc, KnownHost;
    KnownSettled(kind, s, t, issue);
  }

  lemma {:induction false} KnownLocal(kind: Kind, s: State, t: TaskId, issue: Etag)
    requires Known(kind, s) && t in s.tasks && Commit(s, t, issue).None?
    ensures Known(kind, Advance(s, t, issue))
  {
    var k, s' := s.tasks[t], Advance(s, t, issue);
    assert KnownTask(kind, s.past, k) && KnownHost(kind, s.past, HostOf(s, k.host));
    if Reading(k.pc) { KnownRead(kind, s, t); } else { KnownSettle(kind, s, t, issue); }
    hide AdvanceRead, AdvanceWrite, KnownTask, KnownHost;
    assert forall g :: g in s'.hosts && g != k.host ==> g in s.hosts && s'.hosts[g] == s.hosts[g];
  }

  lemma CommitIsGood(kind: Kind, s: State, t: TaskId, issue: Etag)
    requires Known(kind, s) && t in s.tasks && Commit(s, t, issue).Some?
    ensures var v := Commit(s, t, issue).value; v.Version? ==> v.etag == issue && GoodDoc(kind, v.doc)
  {
    assert KnownTask(kind, s.past, s.tasks[t]);
    var op := s.tasks[t].op;
    if op.Save? { WritesGoodDoc(kind, op, None); }
  }

  lemma KnownGrow(kind: Kind, s: State, v: Version, t: TaskId, k': Task)
    requires Known(kind, s) && t in s.tasks
    requires v.Version? ==> Fresh(s.past, v.etag) && GoodDoc(kind, v.doc)
    requires KnownTask(kind, s.past + [v], k')
    ensures Known(kind, s.(past := s.past + [v], tasks := s.tasks[t := k']))
  {
    IssuedExtends(kind, s.past, s.past + [v]);
    hide KnownTask, KnownHost, GoodDoc;
  }

  lemma KnownCommit(kind: Kind, s: State, t: TaskId, issue: Etag)
    requires Known(kind, s) && t in s.tasks && Fresh(s.past, issue) && Commit(s, t, issue).Some?
    ensures Known(kind, Advance(s, t, issue))
  {
    hide AdvanceRead, GoodDoc;
    var s', v := Advance(s, t, issue), Commit(s, t, issue).value;
    assert KnownTask(kind, s.past, s.tasks[t]);
    CommitIsGood(kind, s, t, issue);
    assert v.Version? ==> (s.past + [v])[|s.past|].etag == issue;
    KnownGrow(kind, s, v, t, s'.tasks[t]);
    assert s' == s.(past := s.past + [v], tasks := s.tasks[t := s'.tasks[t]]);
  }

  lemma KnownLost(kind: Kind, s: State, ev: Event)
    requires Known(kind, s) && ev.LoseAck?
    ensures Known(kind, Step(s, ev))
  {
    if Step(s, ev) != s {
      var k, v := s.tasks[ev.task], Commit(s, ev.task, ev.issue).value;
      CommitIsGood(kind, s, ev.task, ev.issue);
      IssuedExtends(kind, s.past, s.past + [v]);
      assert KnownTask(kind, s.past, k);
      hide KnownTask, KnownHost, GoodDoc;
      KnownGrow(kind, s, v, ev.task, k);
      assert s.tasks[ev.task := k] == s.tasks;
    }
  }

  lemma KnownStep(kind: Kind, s: State, ev: Event)
    requires Known(kind, s) && (ev.Begin? ==> OpOf(kind, ev.op))
    ensures Known(kind, Step(s, ev))
  {
    hide Advance, GoodDoc, KnownHost;
    if ev.Run? {
      if ev.task in s.tasks && Fresh(s.past, ev.issue) {
        if Commit(s, ev.task, ev.issue).Some? {
          KnownCommit(kind, s, ev.task, ev.issue);
        } else {
          KnownLocal(kind, s, ev.task, ev.issue);
        }
      }
    } else if ev.LoseAck? {
      KnownLost(kind, s, ev);
    } else {
      assert ev.task in s.tasks ==> KnownTask(kind, s.past, s.tasks[ev.task]);
    }
  }

  lemma {:induction false} KnownRun(kind: Kind, s: State, evs: seq<Event>)
    requires Known(kind, s) && Calls(evs, OpsOf(kind))
    ensures Known(kind, Exec(s, evs))
    decreases |evs|
  {
    if evs != [] {
      KnownStep(kind, s, evs[0]);
      CallsTail(evs, OpsOf(kind));
      hide Known;
      KnownRun(kind, Step(s, evs[0]), evs[1..]);
    }
  }
}
