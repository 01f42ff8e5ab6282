/** One object of the backing store, shared by any number of hosts.

    Every host stacks a `ThreadStore` (with its etag-tagged memo) or a `ControlStateStore`
    over a `CachingStorageAdapter` (with its entry) over the backing store. A task is one call
    of a store operation; it advances by atomic steps, each of which touches one shared thing:
    the host's memo, the host's entry, or the backing store. Steps of all tasks interleave
    freely. The in-process write lock is left out, so every interleaving it would allow is
    among the ones below.

    The backing store is its own history: `past` lists every version it ever held and its last
    element is the present one. An etag is handed out once. */
module SharedLog {
  import opened Text
  import opened ThreadTypes
  import opened Executions

  type TaskId = nat
  type HostId = nat

  datatype Version = Gone | Version(doc: Doc, etag: Etag, writer: TaskId, op: Op)

  /** `CachingStorageAdapter`'s entry for the key, and the thread store's memo of it. */
  datatype Entry = Bytes(doc: Doc, tag: Option<Etag>) | Missing
  datatype Memo = Memo(doc: Doc, etag: Etag)
  datatype Host = Host(entry: Option<Entry>, memo: Option<Memo>)

  datatype Reply =
    | Read(doc: Doc)
    | Acked(version: nat, at: Option<(nat, string)>)
    | Unchanged(at: Option<(nat, string)>)
    | Deleted
    | NotFound
    | Conflict
    | Failed

  /** Where a task is. `head` is what `head_etag` returned, `tag` the etag that `get_bytes`
      asked for just before the body. */
  datatype Pc =
    | HeadEntry
    | HeadInner
    | Headed(head: Option<Etag>)
    | GetEntry(head: Option<Etag>)
    | CheckTag(head: Option<Etag>, doc: Doc, entryTag: Etag)
    | TagHead(head: Option<Etag>)
    | GetInner(head: Option<Etag>, tag: Option<Etag>)
    | Keep(head: Option<Etag>, doc: Doc, tag: Option<Etag>)
    | KeepMissing
    | Got(head: Option<Etag>, doc: Doc)
    | Put(head: Option<Etag>, base: Option<Doc>, next: Doc, at: Option<(nat, string)>)
    | Kept(next: Doc, etag: Etag, version: nat, at: Option<(nat, string)>)
    | Note(next: Doc, etag: Etag, version: nat, at: Option<(nat, string)>)
    | Invalidate
    | Conflicted
    | DeleteInner
    | DeleteEntry
    | DeleteMemo
    | SaveInner
    | SaveEntry(doc: Doc, version: nat)
    | Done(reply: Reply)

  datatype Task = Task(host: HostId, op: Op, start: nat, attempt: nat, pc: Pc)

  datatype State = State(past: seq<Version>, hosts: map<HostId, Host>, tasks: map<TaskId, Task>)

  const INIT := State([Gone], map[], map[])

  function Now(s: State): Version {
    if s.past == [] then Gone else s.past[|s.past| - 1]
  }

  function EtagOf(v: Version): Option<Etag> {
    if v.Gone? then None else Some(v.etag)
  }

  function DocOf(v: Version): Option<Doc> {
    if v.Gone? then None else Some(v.doc)
  }

  function HostOf(s: State, h: HostId): Host {
    if h in s.hosts then s.hosts[h] else Host(None, None)
  }

  predicate Fresh(past: seq<Version>, e: Etag) {
    forall i :: 0 <= i < |past| && past[i].Version? ==> past[i].etag != e
  }

  // ---- Transitions -----------------------------------------------------------------------

  /** What can happen next. `LoseAck` is a write or a deletion that takes effect although its
      caller sees a transient error and will issue it again; `Retry` is a read that fails
      transiently in the middle and starts again; `Abort` is an error, a cancelled future or a
      crash, at any point. An event that is not possible changes nothing. */
  datatype Event =
    | Begin(task: TaskId, host: HostId, op: Op)
    | Run(task: TaskId, issue: Etag)
    | LoseAck(task: TaskId, issue: Etag)
    | Retry(task: TaskId)
    | Abort(task: TaskId)

  function FirstPc(op: Op): Pc {
    if op.Delete? then DeleteInner else if op.Save? then SaveInner else HeadEntry
  }

  /** Only the thread store keeps a memo. */
  predicate Memoised(op: Op) {
    !op.Mutate? && !op.Load?
  }

  /** The version that a write of this call adds now, if it would be accepted. */
  function Commit(s: State, t: TaskId, issue: Etag): Option<Version>
    requires t in s.tasks
  {
    var k := s.tasks[t];
    if k.pc.DeleteInner? then Some(Gone)
    else if k.pc.Put? && EtagOf(Now(s)) == k.pc.head then Some(Version(k.pc.next, issue, t, k.op))
    else if k.pc.SaveInner? && k.op.Save? then Some(Version(Encode(k.op.suite, k.op.payload), issue, t, k.op))
    else None
  }

  /** Where a read that failed in the middle starts again: `head_etag` and `get_bytes` each
      from their first step. */
  function Restart(pc: Pc): Pc {
    if pc.HeadInner? then HeadEntry
    else if pc.CheckTag? || pc.TagHead? || pc.GetInner? then GetEntry(pc.head)
    else pc
  }

  function Goto(s: State, t: TaskId, pc: Pc): State
    requires t in s.tasks
  {
    s.(tasks := s.tasks[t := s.tasks[t].(pc := pc)])
  }

  function SetEntry(s: State, h: HostId, e: Option<Entry>): State {
    s.(hosts := s.hosts[h := HostOf(s, h).(entry := e)])
  }

  function SetMemo(s: State, h: HostId, m: Option<Memo>): State {
    s.(hosts := s.hosts[h := HostOf(s, h).(memo := m)])
  }

  /** The decision of a loaded operation, as the next program point. */
  function Decided(op: Op, head: Option<Etag>, base: Option<Doc>): (pc: Pc)
    ensures pc.Put? || pc.Done?
  {
    match Decide(op, base)
    case Write(next, at) => Put(head, base, next, at)
    case Settled(at) => Done(Unchanged(at))
    case Refused => Done(Failed)
  }

  /** Where a call goes once it knows the etag; `memo` is its host's. */
  function AfterHead(op: Op, memo: Option<Memo>, head: Option<Etag>): (pc: Pc)
    ensures pc.Put? || pc.Done? || pc.GetEntry?
  {
    if !op.Get? && head.None? then (if op.Load? then Done(NotFound) else Decided(op, None, None))
    else if Memoised(op) && head.Some? && memo.Some? && memo.value.etag == head.value then
      (if op.Get? then Done(Read(memo.value.doc)) else Decided(op, head, Some(memo.value.doc)))
    else GetEntry(head)
  }

  /** Where a call goes once it has the body. */
  function AfterGet(op: Op, head: Option<Etag>, doc: Doc): (pc: Pc)
    ensures pc.Put? || pc.Done?
  {
    if op.Load? then Done(Read(doc))
    else if op.Mutate? then Decided(op, head, Some(doc))
    else if !doc.LogDoc? then Done(Failed)
    else if op.Get? then (if GoodLog(doc) then Done(Read(doc)) else Done(Failed))
    else Decided(op, head, Some(doc))
  }

  /** The thread store remembers a log that it could parse; `get` only one of its schema. */
  predicate Memoises(op: Op, head: Option<Etag>, doc: Doc) {
    Memoised(op) && head.Some? && doc.LogDoc? && (op.Get? ==> GoodLog(doc))
  }

  predicate Reading(pc: Pc) {
    || pc.HeadEntry? || pc.HeadInner? || pc.Headed? || pc.GetEntry? || pc.CheckTag?
    || pc.TagHead? || pc.GetInner? || pc.Keep? || pc.KeepMissing? || pc.Got?
  }

  /** The steps up to a loaded document. */
  function AdvanceRead(s: State, t: TaskId): (s': State)
    requires t in s.tasks && Reading(s.tasks[t].pc)
    ensures t in s'.tasks && s' == Goto(s, t, s'.tasks[t].pc).(hosts := s'.hosts)
    ensures var h := s.tasks[t].host; s'.hosts == s.hosts || s'.hosts == s.hosts[h := HostOf(s', h)]
  {
    var k := s.tasks[t];
    var entry := HostOf(s, k.host).entry;
    match k.pc
    case HeadEntry => Goto(s, t, if entry == Some(Missing) then Headed(None) else HeadInner)
    case HeadInner => Goto(s, t, Headed(EtagOf(Now(s))))
    case Headed(head) => Goto(s, t, AfterHead(k.op, HostOf(s, k.host).memo, head))
    case GetEntry(head) =>
      (match entry
       case Some(Bytes(d, Some(tag))) => Goto(s, t, CheckTag(head, d, tag))
       case Some(Bytes(d, None)) => Goto(s, t, Got(head, d))
       case Some(Missing) => Goto(s, t, Done(NotFound))
       case None => Goto(s, t, TagHead(head)))
    case CheckTag(head, d, tag) =>
      Goto(s, t, if EtagOf(Now(s)) == Some(tag) then Got(head, d) else TagHead(head))
    case TagHead(head) => Goto(s, t, GetInner(head, EtagOf(Now(s))))
    case GetInner(head, tag) =>
      Goto(s, t, if Now(s).Version? then Keep(head, Now(s).doc, tag) else KeepMissing)
    case Keep(head, d, tag) => Goto(SetEntry(s, k.host, Some(Bytes(d, tag))), t, Got(head, d))
    case KeepMissing => Goto(SetEntry(s, k.host, Some(Missing)), t, Done(NotFound))
    case Got(head, d) =>
      var s1 := if Memoises(k.op, head, d) then SetMemo(s, k.host, Some(Memo(d, head.value))) else s;
      Goto(s1, t, AfterGet(k.op, head, d))
  }

  /** The conditional write, deletion, and what follows them on the host. */
  function AdvanceWrite(s: State, t: TaskId, issue: Etag): (s': State)
    requires t in s.tasks && !Reading(s.tasks[t].pc)
    ensures t in s'.tasks && s'.tasks == s.tasks[t := s'.tasks[t]]
    ensures s'.tasks[t].op == s.tasks[t].op && s'.tasks[t].start == s.tasks[t].start
    ensures s'.tasks[t].host == s.tasks[t].host
    ensures var h := s.tasks[t].host; s'.hosts == s.hosts || s'.hosts == s.hosts[h := HostOf(s', h)]
  {
    var k := s.tasks[t];
    match k.pc
    case Put(head, base, next, at) =>
      if EtagOf(Now(s)) == head
      then Goto(s.(past := s.past + [Version(next, issue, t, k.op)]), t, Kept(next, issue, |s.past|, at))
      else Goto(s, t, Invalidate)
    case Kept(next, e, v, at) => Goto(SetEntry(s, k.host, Some(Bytes(next, Some(e)))), t, Note(next, e, v, at))
    case Note(next, e, v, at) =>
      Goto(if k.op.Mutate? then s else SetMemo(s, k.host, Some(Memo(next, e))), t, Done(Acked(v, at)))
    case Invalidate => Goto(SetEntry(s, k.host, None), t, Conflicted)
    case Conflicted =>
      if k.op.Append? then
        var s1 := SetMemo(s, k.host, None);
        if k.attempt < AUDIT_MAX_CONFLICT_RETRIES
        then s1.(tasks := s.tasks[t := k.(attempt := k.attempt + 1, pc := HeadEntry)])
        else Goto(s1, t, Done(Failed))
      else Goto(s, t, Done(Conflict))
    case DeleteInner => Goto(s.(past := s.past + [Gone]), t, DeleteEntry)
    case DeleteEntry => Goto(SetEntry(s, k.host, Some(Missing)), t, DeleteMemo)
    case DeleteMemo => Goto(SetMemo(s, k.host, None), t, Done(Deleted))
    case SaveInner =>
      if !k.op.Save? then s
      else
        var doc := Encode(k.op.suite, k.op.payload);
        Goto(s.(past := s.past + [Version(doc, issue, t, k.op)]), t, SaveEntry(doc, |s.past|))
    case SaveEntry(doc, v) => Goto(SetEntry(s, k.host, Some(Bytes(doc, None))), t, Done(Acked(v, None)))
    case Done(_) => s
  }

  /** What a step of call `t` leaves alone: other calls and hosts, and the history but for the
      version it commits. */
  ghost predicate OnlyMoves(s: State, s': State, t: TaskId, issue: Etag)
    requires t in s.tasks
  {
    && t in s'.tasks && s'.tasks == s.tasks[t := s'.tasks[t]]
    && s'.tasks[t].op == s.tasks[t].op && s'.tasks[t].start == s.tasks[t].start
    && s'.tasks[t].host == s.tasks[t].host
    && (s'.hosts == s.hosts || s'.hosts == s.hosts[s.tasks[t].host := HostOf(s', s.tasks[t].host)])
    && s'.past == (if Commit(s, t, issue).Some? then s.past + [Commit(s, t, issue).value] else s.past)
  }

  /** One atomic step of task `t`; a conditional write that succeeds gets etag `issue`. */
  function Advance(s: State, t: TaskId, issue: Etag): (s': State)
    requires t in s.tasks
    ensures OnlyMoves(s, s', t, issue)
  {
    if Reading(s.tasks[t].pc) then AdvanceRead(s, t) else AdvanceWrite(s, t, issue)
  }

  function Step(s: State, ev: Event): State {
    match ev
    case Begin(t, h, op) =>
      if t in s.tasks then s
      else s.(tasks := s.tasks[t := Task(h, op, if s.past == [] then 0 else |s.past| - 1, 0, FirstPc(op))])
    case Run(t, issue) =>
      if t in s.tasks && Fresh(s.past, issue) then Advance(s, t, issue) else s
    case LoseAck(t, issue) =>
      if t in s.tasks && Fresh(s.past, issue) && Commit(s, t, issue).Some?
      then s.(past := s.past + [Commit(s, t, issue).value])
      else s
    case Retry(t) =>
      if t in s.tasks then Goto(s, t, Restart(s.tasks[t].pc)) else s
    case Abort(t) =>
      if t in s.tasks && !s.tasks[t].pc.Done? then Goto(s, t, Done(Failed)) else s
  }

  function Exec(s: State, evs: seq<Event>): State {
    Fold(Step, s, evs)
  }

  lemma ExecConcat(s: State, a: seq<Event>, b: seq<Event>)
    ensures Exec(s, a + b) == Exec(Exec(s, a), b)
  {
    FoldConcat(Step, s, a, b);
  }
}
