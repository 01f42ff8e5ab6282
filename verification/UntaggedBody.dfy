/** How a host comes to hold a body without an etag, and what that costs.

    `get_bytes` asks for the etag before the body. If the object is absent at the first call
    and present at the second, the body is kept with no etag, and such an entry is served
    unchecked from then on. The next write of that host is then made from the stale body but
    carries the true etag. An unconditional `save` leaves such an entry as well. */
module UntaggedBody {
  import opened Text
  import opened ThreadTypes
  import opened SharedLog
  import opened SharedLogInvariant
  import opened SharedLogTheorems
  import opened KnownDocs
  import opened SoloRuns

  // ---- A peer's write first --------------------------------------------------------------

  /** A number above every element. */
  lemma Above(S: set<nat>) returns (n: nat)
    ensures forall m :: m in S ==> m < n
  {
    if S == {} {
      n := 0;
    } else {
      var top :| top in S;
      var below := Above(S - {top});
      n := if below <= top then top + 1 else below;
      assert forall m :: m in S ==> m == top || m in S - {top};
    }
  }

  lemma EtagAbove(past: seq<Version>) returns (e: Etag)
    ensures forall i :: 0 <= i < |past| && past[i].Version? ==> past[i].etag < e
  {
    var tags := set i | 0 <= i < |past| && past[i].Version? :: past[i].etag;
    e := Above(tags);
    forall i | 0 <= i < |past| && past[i].Version? ensures past[i].etag < e { assert past[i].etag in tags; }
  }

  /** A peer's write leaves this host as it was, and its memo, if any, is of an older etag. */
  lemma StaleAfterPeer(kind: Kind, s: State, s1: State, t: TaskId, h: HostId, peer: HostId, op: Op, doc: Doc, e: Etag)
    requires Known(kind, s) && h in s.hosts && h != peer && Committed(s, s1, t, peer, op, doc, e)
    requires forall i :: 0 <= i < |s.past| && s.past[i].Version? ==> s.past[i].etag < e
    ensures Fresh(s1.past, e + 1) && Now(s1) == Version(doc, e, t, op)
    ensures h in s1.hosts && s1.hosts[h] == s.hosts[h]
    ensures s.hosts[h].memo.Some? ==> s.hosts[h].memo.value.etag != e
  {
    assert KnownHost(kind, s.past, s.hosts[h]);
    assert Fresh(s.past, e);
  }

  /** A peer's call and then one on a host with an untagged body: both write, the second from
      the stale body. */
  lemma PeerFirst(kind: Kind, s: State, h: HostId, b: Doc, p: Op, q: Op) returns (evs: seq<Event>)
    requires Known(kind, s) && Idle(s) && h in s.hosts && s.hosts[h].entry == Some(Bytes(b, None))
    requires Writer(p) && Writer(q) && Decide(p, DocOf(Now(s))).Write? && Decide(q, Some(b)).Write?
    ensures Begins(evs, p, q) && Locked(s, evs)
    ensures var past := Exec(s, evs).past;
            && |past| >= 2 && past[|past| - 1].Version? && past[|past| - 2].Version?
            && past[|past| - 1].op == q && past[|past| - 1].doc == Decide(q, Some(b)).next
            && past[|past| - 2].doc == Decide(p, DocOf(Now(s))).next
  {
    hide Exec, Advance, Call, Runs, Step, Decide, Locked;
    var t := Above(s.tasks.Keys);
    var peer := Above(s.hosts.Keys);
    var e := EtagAbove(s.past);
    var evs1 := SoloCall(s, t, peer, p, e);
    var s1 := Exec(s, evs1);
    StaleAfterPeer(kind, s, s1, t, h, peer, p, Decide(p, DocOf(Now(s))).next, e);
    assert t + 1 !in s1.tasks;
    assert LockIsFree(s1, h);
    hide Known, LockIsFree;
    var evs2 := TrustedCall(s1, t + 1, h, b, q, e + 1);
    ExecConcat(s, evs1, evs2);
    LockedConcat(s, evs1, evs2);
    evs := evs1 + evs2;
    BeginsConcat(evs1, evs2, p, q);
    hide Begins;
  }

  // ---- The losing pair -------------------------------------------------------------------

  datatype OpName =
    | GetName | DeleteName | AppendName | PreflightName | SetTitleName | LockTitleName
    | MutateName | LoadName | SaveName

  function NameOf(op: Op): OpName {
    match op
    case Get => GetName
    case Delete => DeleteName
    case Append(_) => AppendName
    case Preflight(_, _, _, _) => PreflightName
    case SetTitle(_) => SetTitleName
    case LockTitle(_) => LockTitleName
    case Mutate(_, _) => MutateName
    case Load(_) => LoadName
    case Save(_, _) => SaveName
  }

  /** The call that every thread, or every controlled run, is made of. */
  function WriterName(kind: Kind): OpName {
    match kind case ThreadKind => AppendName case ControlKind => MutateName
  }

  predicate IsWriterOf(kind: Kind, op: Op) {
    NameOf(op) == WriterName(kind)
  }

  function In(w: set<OpName>): Op -> bool {
    op => NameOf(op) in w
  }

  ghost predicate Contradict(p: Op, q: Op, base: Option<Doc>, b: Doc) {
    && Decide(p, base).Write? && Decide(q, Some(b)).Write?
    && var r := Decide(q, Some(Decide(p, base).next)); !(r.Write? && r.next == Decide(q, Some(b)).next)
  }

  /** Two appends contradict each other when the second did not see the first one's step. */
  lemma AppendsContradict(base: Option<Doc>, b: Doc) returns (p: Op, q: Op)
    requires GoodLog(b) && (base.Some? ==> GoodLog(base.value))
    ensures IsWriterOf(ThreadKind, p) && IsWriterOf(ThreadKind, q) && Contradict(p, q, base, b)
  {
    var x := Recorded("peer", if b.log.steps == [] then 0 else b.log.steps[|b.log.steps| - 1].ts + 1);
    var y := Recorded("own", 0);
    p, q := Append(x), Append(y);
    var first := (if base.Some? then base.value.log else DEFAULT_LOG).steps + [x];
    assert (first + [y])[..|first|] == first && first[|first| - 1] == x;
    assert (b.log.steps + [y])[..|b.log.steps|] == b.log.steps;
  }

  /** Two mutations contradict each other when the second reads the payload before the first. */
  lemma MutationsContradict(base: Option<Doc>, b: Doc) returns (p: Op, q: Op)
    requires GoodDoc(ControlKind, b) && (base.Some? ==> GoodDoc(ControlKind, base.value))
    ensures IsWriterOf(ControlKind, p) && IsWriterOf(ControlKind, q) && Contradict(p, q, base, b)
  {
    var suite, before := b.env.suiteId, b.env.payload;
    var after := before + "x";
    p := Mutate(suite, _ => Some(after));
    q := Mutate(suite, (c: Option<string>) => if c.Some? then c else Some(""));
    DecodeEncode(suite, suite, after);
    assert |after| != |before|;
    assert Decide(p, base) == Write(Encode(suite, after), None);
    assert Decide(q, Some(Encode(suite, after))) == Write(Encode(suite, after), None);
    assert Decide(q, Some(b)) == Write(Encode(suite, before), None);
  }

  lemma NotLossless(past: seq<Version>, p: Op, q: Op, base: Option<Doc>, b: Doc)
    requires |past| >= 2 && Contradict(p, q, base, b)
    requires var v := past[|past| - 1]; v.Version? && v.op == q && v.doc == Decide(q, Some(b)).next
    requires var w := past[|past| - 2]; w.Version? && w.doc == Decide(p, base).next
    ensures !Lossless(past)
  {
    hide Decide;
    var n := |past| - 1;
    assert !LosslessAt(past[n - 1], past[n]);
  }

  /** The losing run from a state with no call under way. */
  lemma UntaggedIdleLoses(kind: Kind, s: State) returns (evs: seq<Event>)
    requires Known(kind, s) && Idle(s) && !Tagged(s)
    ensures Calls(evs, In({WriterName(kind)})) && Locked(s, evs) && !Lossless(Exec(s, evs).past)
  {
    var h :| h in s.hosts && s.hosts[h].entry.Some? && s.hosts[h].entry.value.Bytes?
             && s.hosts[h].entry.value.tag.None?;
    assert KnownHost(kind, s.past, s.hosts[h]);
    var b := s.hosts[h].entry.value.doc;
    var base := DocOf(Now(s));
    var p, q;
    match kind {
      case ThreadKind => p, q := AppendsContradict(base, b);
      case ControlKind => p, q := MutationsContradict(base, b);
    }
    hide Known, Exec, Tagged, Lossless, Decide, GoodDoc, KnownHost, Locked, Idle;
    evs := PeerFirst(kind, s, h, b, p, q);
    assert Calls(evs, In({WriterName(kind)}));
    hide Begins, Calls, In;
    NotLossless(Exec(s, evs).past, p, q, base, b);
  }

  /** Once a host holds an untagged body, one call of a peer and one more on that host lose the
      peer's update, with every host's lock respected. Both are plain appends, or plain
      mutations; calls still under way are cancelled first. */
  lemma UntaggedLoses(kind: Kind, s: State) returns (evs: seq<Event>)
    requires Known(kind, s) && !Tagged(s)
    ensures Calls(evs, In({WriterName(kind)})) && Locked(s, evs) && !Lossless(Exec(s, evs).past)
  {
    var cancel := AbortAll(s, s.tasks.Keys);
    NoWriterLocked(s, cancel);
    assert Calls(cancel, OpsOf(kind)) && Calls(cancel, In({WriterName(kind)}));
    KnownRun(kind, s, cancel);
    assert !Tagged(Exec(s, cancel));
    hide Known, Tagged, Lossless, Locked, Exec, Idle;
    var lose := UntaggedIdleLoses(kind, Exec(s, cancel));
    CallsConcat(cancel, lose, In({WriterName(kind)}));
    ExecConcat(s, cancel, lose);
    LockedConcat(s, cancel, lose);
    evs := cancel + lose;
  }

  // ---- Where untagged bodies come from ---------------------------------------------------

  lemma {:induction false} TaggedAtEnd(s: State, evs: seq<Event>)
    requires TaggedRun(s, evs)
    ensures Tagged(Exec(s, evs))
    decreases |evs|
  {
    if evs != [] { TaggedAtEnd(Step(s, evs[0]), evs[1..]); }
  }

  /** A run that has kept every body tagged so far leaves an untagged one by two branches only:
      an unconditional `save`, or keeping a body whose etag was asked for while the object was
      absent and which was stored later, both during the same call. */
  lemma UntaggedOnlyByLateBody(evs: seq<Event>, ev: Event)
    requires TaggedRun(INIT, evs) && !Tagged(Step(Exec(INIT, evs), ev))
    ensures var s := Exec(INIT, evs);
            && ev.Run? && ev.task in s.tasks
            && var k := s.tasks[ev.task];
            || k.pc.SaveEntry?
            || (k.pc.Keep? && k.pc.tag.None? && LateBody(s.past, k.start, k.pc.doc))
  {
    var s := Exec(INIT, evs);
    RunOk(INIT, evs);
    TaggedAtEnd(INIT, evs);
    hide Exec, Advance;
    if ev.Run? && ev.task in s.tasks {
      var k := s.tasks[ev.task];
      assert PcOk(s.past, ev.task, k);
      if !k.pc.SaveEntry? && (k.pc.Keep? ==> k.pc.tag.Some?) { EntryAfter(s, ev.task, ev.issue); }
    }
  }
}
