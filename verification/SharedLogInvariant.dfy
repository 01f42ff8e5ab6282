/** What the history of the shared log says, and the invariant that every event keeps. */
module SharedLogInvariant {
  import opened Text
  import opened ThreadTypes
  import opened SharedLog

  // ---- What the history says -------------------------------------------------------------

  ghost predicate TagAt(past: seq<Version>, k: nat, e: Etag) {
    k < |past| && past[k].Version? && past[k].etag == e
  }

  ghost predicate DocAt(past: seq<Version>, w: nat, d: Doc) {
    w < |past| && past[w].Version? && past[w].doc == d
  }

  ghost predicate UniqueEtags(past: seq<Version>) {
    forall i, j :: 0 <= i < j < |past| && past[i].Version? && past[j].Version? ==> past[i].etag != past[j].etag
  }

  /** The document is at least as new as the etag it is filed under. */
  ghost predicate Fits(past: seq<Version>, d: Doc, e: Etag) {
    exists k: nat, w: nat :: k <= w && TagAt(past, k, e) && DocAt(past, w, d)
  }

  /** The store held `d` at some moment since version `start`. */
  ghost predicate HeldSince(past: seq<Version>, start: nat, d: Doc) {
    exists w: nat :: start <= w && DocAt(past, w, d)
  }

  ghost predicate HeadSince(past: seq<Version>, start: nat, head: Option<Etag>) {
    head.Some? ==> exists k: nat :: start <= k && TagAt(past, k, head.value)
  }

  ghost predicate GoneAt(past: seq<Version>, i: nat) {
    i < |past| && past[i].Gone?
  }

  ghost predicate GoneSince(past: seq<Version>, start: nat) {
    exists i: nat :: start <= i && GoneAt(past, i)
  }

  /** The object was absent at some moment since `start` and held `d` at a later one. */
  ghost predicate LateBody(past: seq<Version>, start: nat, d: Doc) {
    exists i: nat, w: nat :: start <= i < w && GoneAt(past, i) && DocAt(past, w, d)
  }

  ghost predicate LosslessAt(before: Version, after: Version)
    requires after.Version?
  {
    var p := Decide(after.op, DocOf(before));
    p.Write? && p.next == after.doc
  }

  /** No update is lost: every version is what its writer's operation makes of the version
      that was present at the instant of the write. */
  ghost predicate Lossless(past: seq<Version>) {
    forall i :: 1 <= i < |past| && past[i].Version? ==> LosslessAt(past[i - 1], past[i])
  }

  // ---- The invariant ---------------------------------------------------------------------

  ghost predicate HostOk(past: seq<Version>, h: Host) {
    && (h.entry.Some? && h.entry.value.Bytes? && h.entry.value.tag.Some?
        ==> Fits(past, h.entry.value.doc, h.entry.value.tag.value))
    && (h.memo.Some? ==> Fits(past, h.memo.value.doc, h.memo.value.etag))
  }

  /** Only `get` asks for a body after it was told that there is no object. */
  ghost predicate ReadOk(past: seq<Version>, k: Task, head: Option<Etag>) {
    HeadSince(past, k.start, head) && (head.None? ==> k.op.Get?)
  }

  ghost predicate GotOk(past: seq<Version>, start: nat, head: Option<Etag>, d: Doc) {
    HeldSince(past, start, d) && (head.Some? ==> Fits(past, d, head.value))
  }

  /** What a preflight write reports is the first phase of the log it wrote. */
  ghost predicate AnswerFits(op: Op, next: Doc, at: Option<(nat, string)>) {
    op.Preflight? ==> at.Some? && GoodLog(next) && at.value.0 < |next.log.steps|
                      && FirstPhase(next.log.steps, 0) == Some(at.value.0)
                      && next.log.steps[at.value.0].Phase?
                      && next.log.steps[at.value.0].phase == at.value.1
  }

  ghost predicate Wrote(past: seq<Version>, v: nat, t: TaskId, op: Op, next: Doc) {
    v < |past| && past[v].Version? && past[v].doc == next && past[v].writer == t && past[v].op == op
  }

  ghost predicate PcOk(past: seq<Version>, t: TaskId, k: Task) {
    match k.pc
    case HeadEntry => true
    case HeadInner => true
    case Headed(head) => HeadSince(past, k.start, head)
    case GetEntry(head) => ReadOk(past, k, head)
    case CheckTag(head, d, tag) => ReadOk(past, k, head) && Fits(past, d, tag)
    case TagHead(head) => ReadOk(past, k, head)
    case GetInner(head, tag) => ReadOk(past, k, head) && HeadSince(past, k.start, tag)
                                && (tag.None? ==> GoneSince(past, k.start))
    case Keep(head, d, tag) => ReadOk(past, k, head) && GotOk(past, k.start, head, d)
                               && (if tag.Some? then Fits(past, d, tag.value) else LateBody(past, k.start, d))
    case KeepMissing => true
    case Got(head, d) => ReadOk(past, k, head) && GotOk(past, k.start, head, d)
    case Put(head, base, next, at) =>
      && Decide(k.op, base) == Write(next, at)
      && (head.None? <==> base.None?)
      && (head.Some? ==> Fits(past, base.value, head.value))
    case Kept(next, e, v, at) => TagAt(past, v, e) && Wrote(past, v, t, k.op, next) && AnswerFits(k.op, next, at)
    case Note(next, e, v, at) => TagAt(past, v, e) && Wrote(past, v, t, k.op, next) && AnswerFits(k.op, next, at)
    case SaveInner => k.op.Save?
    case SaveEntry(d, v) => Wrote(past, v, t, k.op, d) && k.op.Save?
    case Done(Read(d)) => HeldSince(past, k.start, d)
    case Done(Acked(v, at)) =>
      && v < |past| && past[v].Version? && Wrote(past, v, t, k.op, past[v].doc)
      && AnswerFits(k.op, past[v].doc, at)
    case Done(Unchanged(at)) =>
      exists d :: HeldSince(past, k.start, d) && Decide(k.op, Some(d)) == Settled(at)
    case _ => true
  }

  ghost predicate Inv(s: State) {
    && s.past != []
    && UniqueEtags(s.past)
    && Lossless(s.past)
    && (forall h :: h in s.hosts ==> HostOk(s.past, s.hosts[h]))
    && (forall t :: t in s.tasks ==> s.tasks[t].start < |s.past| && PcOk(s.past, t, s.tasks[t]))
  }

  /** No host holds a body without an etag, the kind of entry that is served unchecked. */
  ghost predicate Tagged(s: State) {
    forall h :: h in s.hosts ==> s.hosts[h].entry.Some? && s.hosts[h].entry.value.Bytes?
                                 ==> s.hosts[h].entry.value.tag.Some?
  }

  lemma FitsExtends(past: seq<Version>, past': seq<Version>, d: Doc, e: Etag)
    requires past <= past' && Fits(past, d, e)
    ensures Fits(past', d, e)
  {
    var k: nat, w: nat :| k <= w && TagAt(past, k, e) && DocAt(past, w, d);
    assert TagAt(past', k, e) && DocAt(past', w, d);
  }

  lemma HeldExtends(past: seq<Version>, past': seq<Version>, start: nat, d: Doc)
    requires past <= past' && HeldSince(past, start, d)
    ensures HeldSince(past', start, d)
  {
    var w: nat :| start <= w && DocAt(past, w, d);
    assert DocAt(past', w, d);
  }

  lemma HeadExtends(past: seq<Version>, past': seq<Version>, start: nat, head: Option<Etag>)
    requires past <= past' && HeadSince(past, start, head)
    ensures HeadSince(past', start, head)
  {
    if head.Some? {
      var k: nat :| start <= k && TagAt(past, k, head.value);
      assert TagAt(past', k, head.value);
    }
  }

  lemma GoneExtends(past: seq<Version>, past': seq<Version>, start: nat)
    requires past <= past' && GoneSince(past, start)
    ensures GoneSince(past', start)
  {
    var i: nat :| start <= i && GoneAt(past, i);
    assert GoneAt(past', i);
  }

  lemma LateExtends(past: seq<Version>, past': seq<Version>, start: nat, d: Doc)
    requires past <= past' && LateBody(past, start, d)
    ensures LateBody(past', start, d)
  {
    var i: nat, w: nat :| start <= i < w && GoneAt(past, i) && DocAt(past, w, d);
    assert GoneAt(past', i) && DocAt(past', w, d);
  }

  lemma HostExtends(past: seq<Version>, past': seq<Version>, h: Host)
    requires past <= past' && HostOk(past, h)
    ensures HostOk(past', h)
  {
    if h.entry.Some? && h.entry.value.Bytes? && h.entry.value.tag.Some? {
      FitsExtends(past, past', h.entry.value.doc, h.entry.value.tag.value);
    }
    if h.memo.Some? { FitsExtends(past, past', h.memo.value.doc, h.memo.value.etag); }
  }

  lemma PcExtends(past: seq<Version>, past': seq<Version>, t: TaskId, k: Task)
    requires past <= past' && PcOk(past, t, k)
    ensures PcOk(past', t, k)
  {
    match k.pc
    case Headed(head) => HeadExtends(past, past', k.start, head);
    case GetEntry(head) => HeadExtends(past, past', k.start, head);
    case CheckTag(head, d, tag) =>
      HeadExtends(past, past', k.start, head);
      FitsExtends(past, past', d, tag);
    case TagHead(head) => HeadExtends(past, past', k.start, head);
    case GetInner(head, tag) =>
      HeadExtends(past, past', k.start, head);
      HeadExtends(past, past', k.start, tag);
      if tag.None? { GoneExtends(past, past', k.start); }
    case Keep(head, d, tag) =>
      HeadExtends(past, past', k.start, head);
      HeldExtends(past, past', k.start, d);
      if head.Some? { FitsExtends(past, past', d, head.value); }
      if tag.Some? { FitsExtends(past, past', d, tag.value); } else { LateExtends(past, past', k.start, d); }
    case Got(head, d) =>
      HeadExtends(past, past', k.start, head);
      HeldExtends(past, past', k.start, d);
      if head.Some? { FitsExtends(past, past', d, head.value); }
    case Put(head, base, next, _) =>
      if head.Some? { FitsExtends(past, past', base.value, head.value); }
    case Done(Read(d)) => HeldExtends(past, past', k.start, d);
    case Done(Unchanged(at)) =>
      var d :| HeldSince(past, k.start, d) && Decide(k.op, Some(d)) == Settled(at);
      HeldExtends(past, past', k.start, d);
    case _ =>
  }

  /** A document that fits the etag now present is the document now present: the etag fixes
      its own position in the history, and nothing follows the last version. */
  lemma FitsNow(past: seq<Version>, d: Doc, e: Etag)
    requires past != [] && UniqueEtags(past) && Fits(past, d, e)
    requires EtagOf(past[|past| - 1]) == Some(e)
    ensures past[|past| - 1].doc == d
  {
    var k: nat, w: nat :| k <= w && TagAt(past, k, e) && DocAt(past, w, d);
    assert k == |past| - 1;
  }

  /** A document that fits an etag seen since `start` was itself held since `start`. */
  lemma FitsHeld(past: seq<Version>, start: nat, d: Doc, e: Etag)
    requires UniqueEtags(past) && Fits(past, d, e) && HeadSince(past, start, Some(e))
    ensures HeldSince(past, start, d)
  {
    var k: nat, w: nat :| k <= w && TagAt(past, k, e) && DocAt(past, w, d);
    var k': nat :| start <= k' && TagAt(past, k', e);
    assert k == k';
    assert DocAt(past, w, d);
  }

  /** A body read now is at least as new as any etag seen before. */
  lemma PresentFits(past: seq<Version>, start: nat, head: Option<Etag>)
    requires past != [] && past[|past| - 1].Version? && start < |past| && HeadSince(past, start, head)
    ensures GotOk(past, start, head, past[|past| - 1].doc)
  {
    var n := |past| - 1;
    assert DocAt(past, n, past[n].doc);
    if head.Some? {
      var k: nat :| start <= k && TagAt(past, k, head.value);
      assert k <= n;
    }
  }

  lemma PresentLate(past: seq<Version>, start: nat)
    requires past != [] && past[|past| - 1].Version? && GoneSince(past, start)
    ensures LateBody(past, start, past[|past| - 1].doc)
  {
    var i: nat :| start <= i && GoneAt(past, i);
    assert DocAt(past, |past| - 1, past[|past| - 1].doc);
  }

  lemma PresentHead(s: State, start: nat)
    requires s.past != [] && start < |s.past|
    ensures HeadSince(s.past, start, EtagOf(Now(s)))
    ensures Now(s).Gone? ==> GoneSince(s.past, start)
  {
    if Now(s).Version? { assert TagAt(s.past, |s.past| - 1, Now(s).etag); } else { assert GoneAt(s.past, |s.past| - 1); }
  }

  /** A write that the store accepts is made from the version it replaces. */
  lemma WriteLossless(s: State, head: Option<Etag>, base: Option<Doc>, next: Doc, at: Option<(nat, string)>, op: Op)
    requires s.past != [] && UniqueEtags(s.past)
    requires EtagOf(Now(s)) == head
    requires Decide(op, base) == Write(next, at) && (head.None? <==> base.None?)
    requires head.Some? ==> Fits(s.past, base.value, head.value)
    ensures Decide(op, DocOf(Now(s))) == Write(next, at)
  {
    if head.Some? { FitsNow(s.past, base.value, head.value); }
  }

  lemma DecidedOk(past: seq<Version>, t: TaskId, k: Task, head: Option<Etag>, base: Option<Doc>)
    requires head.None? <==> base.None?
    requires head.Some? ==> Fits(past, base.value, head.value) && HeldSince(past, k.start, base.value)
    requires k.pc == Decided(k.op, head, base)
    ensures PcOk(past, t, k)
  {
    if k.op.Preflight? { assert base.None? ==> FirstPhase(DEFAULT_LOG.steps, 0) == None; }
  }

  /** A step appended to a log without a phase step is its first phase step. */
  lemma {:induction false} FirstPhaseAppend(steps: seq<ThreadStep>, x: ThreadStep, from: nat)
    requires from <= |steps| && FirstPhase(steps, from) == None
    ensures FirstPhase(steps + [x], from) == if x.Phase? then Some(|steps|) else None
    decreases |steps| - from
  {
    if from < |steps| {
      assert (steps + [x])[from] == steps[from];
      FirstPhaseAppend(steps, x, from + 1);
    } else if !x.Phase? {
      assert FirstPhase(steps + [x], from + 1) == None;
    }
  }

  lemma AnswerOfWrite(op: Op, base: Option<Doc>, next: Doc, at: Option<(nat, string)>)
    requires Decide(op, base) == Write(next, at)
    ensures AnswerFits(op, next, at)
  {
    if op.Preflight? {
      var log := if base.None? then DEFAULT_LOG else base.value.log;
      FirstPhaseAppend(log.steps, PreflightStep(op.agent, op.suiteId, op.phase, op.ts), 0);
    }
  }

  /** Growing the history keeps everything that is already true of it. */
  lemma GrowOk(s: State, v: Version, t: TaskId, k': Task)
    requires Inv(s) && t in s.tasks
    requires v.Version? ==> Fresh(s.past, v.etag) && LosslessAt(Now(s), v)
    requires k'.start == s.tasks[t].start && PcOk(s.past + [v], t, k')
    ensures Inv(s.(past := s.past + [v], tasks := s.tasks[t := k']))
  {
    var past' := s.past + [v];
    forall h | h in s.hosts ensures HostOk(past', s.hosts[h]) { HostExtends(s.past, past', s.hosts[h]); }
    forall u | u in s.tasks && u != t ensures PcOk(past', u, s.tasks[u]) {
      PcExtends(s.past, past', u, s.tasks[u]);
    }
    forall i | 1 <= i < |past'| && past'[i].Version? ensures LosslessAt(past'[i - 1], past'[i]) {
      if i < |s.past| { assert LosslessAt(s.past[i - 1], s.past[i]); }
    }
  }

  /** Changing one host and moving one task keeps the invariant of everything else. */
  lemma LocalOk(s: State, t: TaskId, h: HostId, host': Host, k': Task)
    requires Inv(s) && t in s.tasks
    requires HostOk(s.past, host')
    requires k'.start == s.tasks[t].start && PcOk(s.past, t, k')
    ensures Inv(s.(hosts := s.hosts[h := host'], tasks := s.tasks[t := k']))
    ensures Inv(s.(tasks := s.tasks[t := k']))
  {
  }

  lemma AfterHeadOk(s: State, t: TaskId, issue: Etag)
    requires Inv(s) && t in s.tasks && s.tasks[t].pc.Headed?
    ensures Inv(Advance(s, t, issue))
  {
    hide AdvanceWrite;
    var k := s.tasks[t];
    var head := k.pc.head;
    var m := HostOf(s, k.host).memo;
    var pc' := Advance(s, t, issue).tasks[t].pc;
    if !k.op.Get? && head.None? {
      if !k.op.Load? { DecidedOk(s.past, t, k.(pc := pc'), None, None); }
    } else if Memoised(k.op) && head.Some? && m.Some? && m.value.etag == head.value {
      assert HostOk(s.past, HostOf(s, k.host));
      FitsHeld(s.past, k.start, m.value.doc, head.value);
      if !k.op.Get? {
        DecidedOk(s.past, t, k.(pc := pc'), head, Some(m.value.doc));
      }
    }
    LocalOk(s, t, k.host, HostOf(s, k.host), k.(pc := pc'));
  }

  lemma AfterGetOk(s: State, t: TaskId, issue: Etag)
    requires Inv(s) && t in s.tasks && s.tasks[t].pc.Got?
    ensures Inv(Advance(s, t, issue))
  {
    hide AdvanceWrite;
    var k := s.tasks[t];
    var head, d := k.pc.head, k.pc.doc;
    var s' := Advance(s, t, issue);
    var pc' := s'.tasks[t].pc;
    if !k.op.Get? && !k.op.Load? {
      if k.op.Mutate? || d.LogDoc? { DecidedOk(s.past, t, k.(pc := pc'), head, Some(d)); }
    }
    LocalOk(s, t, k.host, HostOf(s', k.host), k.(pc := pc'));
  }

  /** Reading: the steps between `head_etag` and the body that look at the entry or change it. */
  lemma EntryStepOk(s: State, t: TaskId, issue: Etag)
    requires Inv(s) && Tagged(s) && t in s.tasks
    requires var pc := s.tasks[t].pc; pc.GetEntry? || pc.Keep? || pc.KeepMissing?
    ensures Inv(Advance(s, t, issue))
  {
    hide AdvanceWrite;
    var k := s.tasks[t];
    var s' := Advance(s, t, issue);
    assert HostOk(s.past, HostOf(s, k.host));
    LocalOk(s, t, k.host, HostOf(s', k.host), s'.tasks[t]);
  }

  /** Reading: the requests. */
  lemma AskStepOk(s: State, t: TaskId, issue: Etag)
    requires Inv(s) && Tagged(s) && t in s.tasks
    requires var pc := s.tasks[t].pc; pc.CheckTag? || pc.TagHead? || pc.GetInner?
    ensures Inv(Advance(s, t, issue))
  {
    hide AdvanceWrite;
    var k := s.tasks[t];
    var s' := Advance(s, t, issue);
    assert HostOk(s.past, HostOf(s, k.host));
    if k.pc.CheckTag? {
      if EtagOf(Now(s)) == Some(k.pc.entryTag) {
        FitsNow(s.past, k.pc.doc, k.pc.entryTag);
        PresentFits(s.past, k.start, k.pc.head);
      }
    } else if k.pc.TagHead? {
      PresentHead(s, k.start);
    } else if k.pc.GetInner? && Now(s).Version? {
      PresentFits(s.past, k.start, k.pc.head);
      PresentFits(s.past, k.start, k.pc.tag);
      if k.pc.tag.None? { PresentLate(s.past, k.start); }
    }
    LocalOk(s, t, k.host, HostOf(s', k.host), s'.tasks[t]);
  }

  /** The conditional write: accepted, it extends the history by its own operation. */
  lemma {:induction false} PutStepOk(s: State, t: TaskId, issue: Etag)
    requires Inv(s) && t in s.tasks && Fresh(s.past, issue) && s.tasks[t].pc.Put?
    ensures Inv(Advance(s, t, issue))
  {
    hide AdvanceRead;
    var k := s.tasks[t];
    var pc := k.pc;
    var s' := Advance(s, t, issue);
    if EtagOf(Now(s)) == pc.head {
      WriteLossless(s, pc.head, pc.base, pc.next, pc.at, k.op);
      AnswerOfWrite(k.op, pc.base, pc.next, pc.at);
      GrowOk(s, Version(pc.next, issue, t, k.op), t, s'.tasks[t]);
    } else {
      LocalOk(s, t, k.host, HostOf(s, k.host), s'.tasks[t]);
    }
  }

  lemma DeleteStepOk(s: State, t: TaskId, issue: Etag)
    requires Inv(s) && t in s.tasks && s.tasks[t].pc.DeleteInner?
    ensures Inv(Advance(s, t, issue))
  {
    hide AdvanceRead;
    GrowOk(s, Gone, t, Advance(s, t, issue).tasks[t]);
  }

  /** What follows an accepted write on its host. */
  lemma KeptStepOk(s: State, t: TaskId, issue: Etag)
    requires Inv(s) && t in s.tasks && (s.tasks[t].pc.Kept? || s.tasks[t].pc.Note?)
    ensures Inv(Advance(s, t, issue))
  {
    hide AdvanceRead, Lossless;
    var k := s.tasks[t];
    var s' := Advance(s, t, issue);
    assert HostOk(s.past, HostOf(s, k.host)) && PcOk(s.past, t, k);
    assert TagAt(s.past, k.pc.version, k.pc.etag) && DocAt(s.past, k.pc.version, k.pc.next);
    assert Fits(s.past, k.pc.next, k.pc.etag);
    LocalOk(s, t, k.host, HostOf(s', k.host), s'.tasks[t]);
  }

  /** What follows a refused write or a deletion on its host. */
  lemma {:induction false} SettleStepOk(s: State, t: TaskId, issue: Etag)
    requires Inv(s) && t in s.tasks
    requires var pc := s.tasks[t].pc; pc.Invalidate? || pc.Conflicted? || pc.DeleteEntry? || pc.DeleteMemo?
    ensures Inv(Advance(s, t, issue))
  {
    hide AdvanceRead, Lossless, Fits;
    var k := s.tasks[t];
    var s' := Advance(s, t, issue);
    assert HostOk(s.past, HostOf(s, k.host));
    LocalOk(s, t, k.host, HostOf(s', k.host), s'.tasks[t]);
  }

  /** Moving one task keeps the invariant of everything else. */
  lemma LocalMove(s: State, t: TaskId, k': Task)
    requires Inv(s) && t in s.tasks
    requires k'.start == s.tasks[t].start && PcOk(s.past, t, k')
    ensures Inv(s.(tasks := s.tasks[t := k']))
  {
    hide PcOk, HostOk, Lossless;
  }

  lemma HeadStepOk(s: State, t: TaskId, issue: Etag)
    requires Inv(s) && t in s.tasks && (s.tasks[t].pc.HeadEntry? || s.tasks[t].pc.HeadInner?)
    ensures Inv(Advance(s, t, issue))
  {
    hide AdvanceWrite, Lossless, Fits, HostOk;
    var k := s.tasks[t];
    PresentHead(s, k.start);
    LocalMove(s, t, Advance(s, t, issue).tasks[t]);
  }

  lemma BeginOk(s: State, ev: Event)
    requires Inv(s) && ev.Begin?
    ensures Inv(Step(s, ev))
  {
    hide HostOk, Lossless;
  }

  lemma AbortOk(s: State, ev: Event)
    requires Inv(s) && ev.Abort?
    ensures Inv(Step(s, ev))
  {
    if Step(s, ev) != s { LocalMove(s, ev.task, s.tasks[ev.task].(pc := Done(Failed))); }
  }

  lemma SaveStepOk(s: State, t: TaskId, issue: Etag)
    requires Inv(s) && t in s.tasks && Fresh(s.past, issue) && s.tasks[t].pc.SaveInner?
    ensures Inv(Advance(s, t, issue))
  {
    hide AdvanceRead;
    var k := s.tasks[t];
    assert PcOk(s.past, t, k);
    GrowOk(s, Version(Encode(k.op.suite, k.op.payload), issue, t, k.op), t, Advance(s, t, issue).tasks[t]);
  }

  lemma SavedStepOk(s: State, t: TaskId, issue: Etag)
    requires Inv(s) && t in s.tasks && s.tasks[t].pc.SaveEntry?
    ensures Inv(Advance(s, t, issue))
  {
    hide AdvanceRead, Lossless, Fits;
    var k := s.tasks[t];
    var s' := Advance(s, t, issue);
    assert HostOk(s.past, HostOf(s, k.host)) && PcOk(s.past, t, k);
    LocalOk(s, t, k.host, HostOf(s', k.host), s'.tasks[t]);
  }

  /** A write or a deletion whose acknowledgement is lost is still one of its own operation. */
  lemma LoseAckOk(s: State, t: TaskId, issue: Etag)
    requires Inv(s)
    ensures Inv(Step(s, LoseAck(t, issue)))
  {
    if Step(s, LoseAck(t, issue)) != s {
      var k := s.tasks[t];
      var v := Commit(s, t, issue).value;
      assert PcOk(s.past, t, k);
      if k.pc.Put? { WriteLossless(s, k.pc.head, k.pc.base, k.pc.next, k.pc.at, k.op); }
      PcExtends(s.past, s.past + [v], t, k);
      GrowOk(s, v, t, k);
      assert s.tasks[t := k] == s.tasks;
    }
  }

  /** A read that starts again forgets what it saw in between. */
  lemma RetryOk(s: State, ev: Event)
    requires Inv(s) && ev.Retry?
    ensures Inv(Step(s, ev))
  {
    if ev.task in s.tasks {
      var k := s.tasks[ev.task];
      assert PcOk(s.past, ev.task, k);
      LocalMove(s, ev.task, k.(pc := Restart(k.pc)));
    }
  }

  lemma AdvanceOk(s: State, t: TaskId, issue: Etag)
    requires Inv(s) && Tagged(s) && t in s.tasks && Fresh(s.past, issue)
    ensures Inv(Advance(s, t, issue))
  {
    hide AdvanceRead, PcOk, HostOk, Inv, Tagged;
    var pc := s.tasks[t].pc;
    if pc.HeadEntry? || pc.HeadInner? {
      HeadStepOk(s, t, issue);
    } else if pc.Headed? {
      AfterHeadOk(s, t, issue);
    } else if pc.Got? {
      AfterGetOk(s, t, issue);
    } else if Reading(pc) {
      if pc.GetEntry? || pc.Keep? || pc.KeepMissing? { EntryStepOk(s, t, issue); } else { AskStepOk(s, t, issue); }
    } else if pc.Put? {
      PutStepOk(s, t, issue);
    } else if pc.Kept? || pc.Note? {
      KeptStepOk(s, t, issue);
    } else if pc.DeleteInner? {
      DeleteStepOk(s, t, issue);
    } else if pc.SaveInner? {
      SaveStepOk(s, t, issue);
    } else if pc.SaveEntry? {
      SavedStepOk(s, t, issue);
    } else if !pc.Done? {
      SettleStepOk(s, t, issue);
    }
  }

  /** Every event keeps the invariant as long as no host holds an untagged body. */
  lemma StepOk(s: State, ev: Event)
    requires Inv(s) && Tagged(s)
    ensures Inv(Step(s, ev))
  {
    hide AdvanceRead, AdvanceWrite, PcOk, HostOk, Inv, Tagged;
    if ev.LoseAck? {
      LoseAckOk(s, ev.task, ev.issue);
    } else if ev.Begin? {
      BeginOk(s, ev);
    } else if ev.Abort? {
      AbortOk(s, ev);
    } else if ev.Retry? {
      RetryOk(s, ev);
    } else if ev.task in s.tasks && Fresh(s.past, ev.issue) {
      AdvanceOk(s, ev.task, ev.issue);
    }
  }
}
