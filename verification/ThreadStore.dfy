/** `ThreadStore` over the caching adapter, as an object: what one call does to the stored log
    when no peer writes while it runs, whatever peers wrote before. */
module ThreadStore {
  import opened Text
  import opened ThreadTypes
  import opened Storage

  datatype CallError = StoreError(error: StorageError) | NotALog | SchemaMismatch | AuditConflict | AuditUnavailable
  datatype CallResult<+T> = Success(value: T) | Failure(error: CallError)

  datatype MemoEntry = MemoEntry(log: ThreadLog, etag: Etag)
  datatype Loaded = Loaded(log: ThreadLog, etag: Etag)

  /** The document an object holds. */
  function DocIn(b: Backing, key: Key, parse: string -> Option<Doc>): Option<Doc> {
    if key !in b.objects then None
    else
      match b.objects[key].blob
      case Printed(doc, _) => Some(doc)
      case Raw(content) => parse(content)
  }

  ghost function DecideOn(b: Backing, key: Key, parse: string -> Option<Doc>, op: Op): Plan {
    if key in b.objects && DocIn(b, key, parse).None? then Refused else Decide(op, DocIn(b, key, parse))
  }

  /** The outcome of the operation on what is stored, by the same decision that the shared
      log's tasks take. */
  ghost predicate Wrote(before: Backing, after: Backing, key: Key, parse: string -> Option<Doc>, op: Op) {
    && DecideOn(before, key, parse, op).Write?
    && after.objects.Keys == before.objects.Keys + {key}
    && (forall k :: k in before.objects && k != key ==> after.objects[k] == before.objects[k])
    && DocIn(after, key, parse) == Some(DecideOn(before, key, parse, op).next)
  }

  /** The log that a call starts from: the stored one, or an empty one. */
  ghost function LogIn(b: Backing, key: Key, parse: string -> Option<Doc>): ThreadLog {
    BaseLog(DocIn(b, key, parse))
  }

  /** The promised effect of the operation on the stored log, and on nothing else. */
  ghost predicate Performed(before: Backing, after: Backing, key: Key, parse: string -> Option<Doc>, op: Op) {
    && (key in before.objects ==> DocIn(before, key, parse).Some? && GoodLog(DocIn(before, key, parse).value))
    && after.objects.Keys == before.objects.Keys + {key}
    && (forall k :: k in before.objects && k != key ==> after.objects[k] == before.objects[k])
    && DocIn(after, key, parse).Some? && DocIn(after, key, parse).value.LogDoc?
    && Effect(op, LogIn(before, key, parse), DocIn(after, key, parse).value.log)
  }

  /** The promise of an operation that may find nothing to do. */
  ghost predicate Kept(before: Backing, after: Backing, key: Key, parse: string -> Option<Doc>, op: Op) {
    if NothingToDo(op, LogIn(before, key, parse)) then after == before
    else Performed(before, after, key, parse, op)
  }

  lemma WroteIsPerformed(before: Backing, after: Backing, key: Key, parse: string -> Option<Doc>, op: Op)
    requires WritesLogs(op) && Wrote(before, after, key, parse, op)
    ensures Performed(before, after, key, parse, op) && !NothingToDo(op, LogIn(before, key, parse))
  {
    var base := DocIn(before, key, parse);
    ForeignDocIsRefused(op, base);
    DecisionIsPromised(op, base);
  }

  /** Whatever comes of a decision that was followed, the promise is kept. */
  lemma EnsuredIsKept(before: Backing, key: Key, parse: string -> Option<Doc>, op: Op)
    requires WritesLogs(op)
    ensures forall after :: !DecideOn(before, key, parse, op).Refused?
              && (DecideOn(before, key, parse, op).Settled? ==> after == before)
              && (DecideOn(before, key, parse, op).Write? ==> Wrote(before, after, key, parse, op))
              ==> Kept(before, after, key, parse, op)
  {
    forall after | !DecideOn(before, key, parse, op).Refused?
              && (DecideOn(before, key, parse, op).Settled? ==> after == before)
              && (DecideOn(before, key, parse, op).Write? ==> Wrote(before, after, key, parse, op))
      ensures Kept(before, after, key, parse, op)
    {
      var base := DocIn(before, key, parse);
      ForeignDocIsRefused(op, base);
      DecisionIsPromised(op, base);
      if DecideOn(before, key, parse, op).Write? { WroteIsPerformed(before, after, key, parse, op); }
    }
  }

  class Store {
    const adapter: CachingStorageAdapter
    const storage: BackingStore
    const parse: string -> Option<Doc>
    var memo: map<Key, MemoEntry>

    constructor (adapter: CachingStorageAdapter)
      ensures this.adapter == adapter && memo == map[] && storage == adapter.inner && parse == adapter.parse
    {
      this.adapter := adapter;
      this.storage := adapter.inner;
      this.parse := adapter.parse;
      memo := map[];
    }

    /** Whatever peers have done: a cached body filed under the etag now present is the body
        now present, etags not yet handed out are not in any cache, and no body of this key is
        held without an etag. */
    ghost predicate Valid(key: Key)
      reads this, adapter, storage
    {
      && storage == adapter.inner && parse == adapter.parse
      && (key in storage.state.objects ==> storage.state.objects[key].etag < storage.state.clock)
      && (key in adapter.entries && adapter.entries[key].Bytes? ==>
            && adapter.entries[key].tag.Some? && adapter.entries[key].tag.value < storage.state.clock
            && (HeadOf(storage.state, key) == adapter.entries[key].tag
                ==> AlikeBlob(adapter.entries[key].blob, storage.state.objects[key].blob)))
      && (key in memo ==>
            && memo[key].etag < storage.state.clock
            && (HeadOf(storage.state, key) == Some(memo[key].etag)
                ==> DocIn(storage.state, key, parse) == Some(LogDoc(memo[key].log))))
    }

    ghost predicate BelievedMissing(key: Key)
      reads adapter
    {
      key in adapter.entries && adapter.entries[key].Missing?
    }

    /** `get` would be answered from the memo. */
    ghost predicate ServedFromMemo(key: Key)
      reads this, adapter, storage
    {
      !BelievedMissing(key) && key in memo && HeadOf(storage.state, key) == Some(memo[key].etag)
    }

    method Remember(key: Key, log: ThreadLog, etag: Etag)
      modifies this
      ensures memo == old(memo)[key := MemoEntry(log, etag)]
    {
      memo := memo[key := MemoEntry(log, etag)];
    }

    /** The stored object is not a log of this schema. */
    ghost predicate UnreadableLog(key: Key)
      reads this, adapter, storage
    {
      && key in storage.state.objects
      && (DocIn(storage.state, key, parse).None? || !GoodLog(DocIn(storage.state, key, parse).value))
    }

    /** `load_thread_log_for_write`. */
    method LoadForWrite(key: Key) returns (r: CallResult<Option<Loaded>>)
      requires Valid(key)
      modifies this, adapter, storage`faults
      ensures storage.faults == old(storage.faults) + if r == Failure(StoreError(Unavailable)) then 1 else 0
      ensures Valid(key) && storage.state == old(storage.state)
      ensures BelievedMissing(key) ==> old(BelievedMissing(key))
      ensures r.Success? && r.value.None? ==> old(BelievedMissing(key)) || key !in storage.state.objects
      ensures r.Success? && r.value.Some? ==>
                && HeadOf(storage.state, key) == Some(r.value.value.etag)
                && DocIn(storage.state, key, parse) == Some(LogDoc(r.value.value.log))
                && GoodLog(LogDoc(r.value.value.log))
      ensures r.Failure? ==> r.error == StoreError(Unavailable)
                             || (UnreadableLog(key) && r.error in {StoreError(BadJson), NotALog, SchemaMismatch})
      ensures r == Failure(SchemaMismatch) ==> ServedFromMemo(key) && !GoodLog(LogDoc(memo[key].log))
    {
      var head := adapter.HeadEtag(key);
      if head.Err? { return Failure(StoreError(head.error)); }
      if head.value.None? { return Success(None); }
      var etag := head.value.value;
      var log;
      if key in memo && memo[key].etag == etag {
        log := memo[key].log;
      } else {
        var body := adapter.GetJson(key);
        if body.Err? { return Failure(StoreError(body.error)); }
        if !body.value.LogDoc? { return Failure(NotALog); }
        log := body.value.log;
        Remember(key, log, etag);
      }
      if log.schemaVersion != THREAD_SCHEMA_VERSION { return Failure(SchemaMismatch); }
      return Success(Some(Loaded(log, etag)));
    }

    /** `save_thread_log_if_etag_matches`. */
    method SaveIfEtagMatches(key: Key, log: ThreadLog, expected: Option<Etag>) returns (r: CallResult<Etag>)
      requires Valid(key)
      modifies this, adapter, storage
      ensures storage.faults == old(storage.faults) + if r == Failure(StoreError(Unavailable)) then 1 else 0
      ensures Valid(key)
      ensures r.Success? ==>
                && HeadOf(old(storage.state), key) == expected
                && storage.state == Stored(old(storage.state), key, Printed(LogDoc(log), storage.compact))
                && r.value == old(storage.state).clock
                && memo == old(memo) && !BelievedMissing(key)
      ensures r.Failure? ==> storage.state == old(storage.state) && memo == old(memo)
      ensures r.Failure? ==> r.error == StoreError(Unavailable)
                             || (r.error == AuditConflict && HeadOf(storage.state, key) != expected
                                 && key !in adapter.entries)
    {
      var status := adapter.PutJsonIfEtagMatches(key, LogDoc(log), expected);
      match status {
        case Err(e) => return Failure(StoreError(e));
        case Ok(Written(etag)) => return Success(etag);
        case Ok(Conflict(_)) => return Failure(AuditConflict);
      }
    }

    /** `append_step_locked`. */
    method AppendStepLocked(key: Key, step: ThreadStep) returns (r: CallResult<()>)
      requires Valid(key)
      modifies this, adapter, storage
      ensures storage.faults == old(storage.faults) + if r == Failure(StoreError(Unavailable)) then 1 else 0
      ensures Valid(key)
      ensures r.Success? ==> Wrote(old(storage.state), storage.state, key, parse, Append(step))
      ensures r.Success? ==> Performed(old(storage.state), storage.state, key, parse, Append(step))
      ensures r.Failure? ==> storage.state == old(storage.state)
      ensures r == Failure(AuditConflict) ==> old(BelievedMissing(key)) && key !in adapter.entries
      ensures r.Failure? ==> r.error in {StoreError(Unavailable), AuditConflict} || UnreadableLog(key)
    {
      var loaded := LoadForWrite(key);
      if loaded.Failure? { return Failure(loaded.error); }
      var expected := if loaded.value.Some? then Some(loaded.value.value.etag) else None;
      var log := if loaded.value.Some? then loaded.value.value.log else DEFAULT_LOG;
      if step.Complete? {
        log := log.(result := Some(ThreadResult(step.kind, step.payload, step.display)));
      }
      log := log.(steps := log.steps + [step]);
      var saved := SaveIfEtagMatches(key, log, expected);
      if saved.Failure? { return Failure(saved.error); }
      Remember(key, log, saved.value);
      WroteIsPerformed(old(storage.state), storage.state, key, parse, Append(step));
      return Success(());
    }

    /** `append_step`: up to five retries on conflict. With no peer writing meanwhile it
        appends the step to the stored log, other objects untouched; a stale belief that the
        object is missing costs exactly one conflict, and never the call. */
    method AppendStep(key: Key, step: ThreadStep) returns (r: CallResult<()>, ghost conflicts: nat)
      requires Valid(key)
      modifies this, adapter, storage
      ensures storage.faults == old(storage.faults) + if r == Failure(StoreError(Unavailable)) then 1 else 0
      ensures Valid(key)
      ensures r.Success? ==> Wrote(old(storage.state), storage.state, key, parse, Append(step))
      ensures r.Success? ==> Performed(old(storage.state), storage.state, key, parse, Append(step))
      ensures r.Failure? ==> storage.state == old(storage.state)
      ensures r.Failure? ==> r.error == StoreError(Unavailable) || UnreadableLog(key)
      ensures conflicts <= if old(BelievedMissing(key)) then 1 else 0
    {
      conflicts := 0;
      for attempt := 0 to AUDIT_MAX_CONFLICT_RETRIES + 1
        invariant Valid(key) && storage.state == old(storage.state) && storage.faults == old(storage.faults)
        invariant conflicts == attempt <= 1
        invariant attempt == 1 ==> old(BelievedMissing(key)) && key !in adapter.entries
        invariant attempt == 0 ==> adapter.entries == old(adapter.entries)
      {
        r := AppendStepLocked(key, step);
        match r {
          case Success(_) => return;
          case Failure(AuditConflict) =>
            memo := memo - {key};
            conflicts := conflicts + 1;
          case Failure(_) => return;
        }
      }
      r := Failure(AuditUnavailable);
    }

    /** The scan of `ensure_preflight_phase_step`. */
    static method PhaseIndex(steps: seq<ThreadStep>) returns (r: Option<nat>)
      ensures r == FirstPhase(steps, 0)
    {
      for idx := 0 to |steps|
        invariant FirstPhase(steps, 0) == FirstPhase(steps, idx)
      {
        if steps[idx].Phase? { return Some(idx); }
      }
      return None;
    }

    /** `ensure_preflight_phase_step`. */
    method EnsurePreflightPhaseStep(key: Key, agent: string, suiteId: Option<string>, phase: string, ts: int)
      returns (r: CallResult<(nat, string)>)
      requires Valid(key)
      modifies this, adapter, storage
      ensures storage.faults == old(storage.faults) + if r == Failure(StoreError(Unavailable)) then 1 else 0
      ensures Valid(key)
      ensures r.Success? ==>
                var plan := DecideOn(old(storage.state), key, parse, Preflight(agent, suiteId, phase, ts));
                && !plan.Refused? && plan.at == Some(r.value)
                && (plan.Settled? ==> storage.state == old(storage.state))
                && (plan.Write? ==> Wrote(old(storage.state), storage.state, key, parse,
                                          Preflight(agent, suiteId, phase, ts)))
      ensures r.Success? ==>
                var log := LogIn(old(storage.state), key, parse);
                && Kept(old(storage.state), storage.state, key, parse, Preflight(agent, suiteId, phase, ts))
                && (if r.value.0 < |log.steps|
                    then log.steps[r.value.0].Phase? && log.steps[r.value.0].phase == r.value.1
                         && forall i :: 0 <= i < r.value.0 ==> !log.steps[i].Phase?
                    else r.value == (|log.steps|, phase))
      ensures r.Failure? ==> storage.state == old(storage.state)
      ensures r == Failure(AuditConflict) ==> old(BelievedMissing(key)) && key !in adapter.entries
      ensures r.Failure? ==> r.error in {StoreError(Unavailable), AuditConflict} || UnreadableLog(key)
    {
      EnsuredIsKept(storage.state, key, parse, Preflight(agent, suiteId, phase, ts));
      hide UnreadableLog, FirstPhase, PreflightStep, GoodLog, Kept, Performed, NothingToDo;
      var loaded := LoadForWrite(key);
      if loaded.Failure? { return Failure(loaded.error); }
      var expected := if loaded.value.Some? then Some(loaded.value.value.etag) else None;
      var log := if loaded.value.Some? then loaded.value.value.log else DEFAULT_LOG;
      var first := PhaseIndex(log.steps);
      if first.Some? { return Success((first.value, log.steps[first.value].phase)); }
      log := log.(steps := log.steps + [PreflightStep(agent, suiteId, phase, ts)]);
      var saved := SaveIfEtagMatches(key, log, expected);
      if saved.Failure? { return Failure(saved.error); }
      Remember(key, log, saved.value);
      return Success((|log.steps| - 1, phase));
    }

    /** `set_title_if_absent` and `lock_title` share their shape. */
    method SetTitleIfAbsent(key: Key, title: string) returns (r: CallResult<()>)
      requires Valid(key)
      modifies this, adapter, storage
      ensures storage.faults == old(storage.faults) + if r == Failure(StoreError(Unavailable)) then 1 else 0
      ensures Valid(key)
      ensures r.Success? ==>
                var plan := DecideOn(old(storage.state), key, parse, SetTitle(title));
                && !plan.Refused?
                && (plan.Settled? ==> storage.state == old(storage.state))
                && (plan.Write? ==> Wrote(old(storage.state), storage.state, key, parse, SetTitle(title)))
      ensures r.Success? ==> Kept(old(storage.state), storage.state, key, parse, SetTitle(title))
      ensures r.Failure? ==> storage.state == old(storage.state)
      ensures r == Failure(AuditConflict) ==> old(BelievedMissing(key)) && key !in adapter.entries
      ensures r.Failure? ==> r.error in {StoreError(Unavailable), AuditConflict} || UnreadableLog(key)
    {
      EnsuredIsKept(storage.state, key, parse, SetTitle(title));
      hide Kept, Performed, NothingToDo;
      var loaded := LoadForWrite(key);
      if loaded.Failure? { return Failure(loaded.error); }
      var expected := if loaded.value.Some? then Some(loaded.value.value.etag) else None;
      var log := if loaded.value.Some? then loaded.value.value.log else DEFAULT_LOG;
      if log.title.None? || log.title.value == "" {
        log := log.(title := Some(title));
        var saved := SaveIfEtagMatches(key, log, expected);
        if saved.Failure? { return Failure(saved.error); }
        Remember(key, log, saved.value);
      }
      return Success(());
    }

    method LockTitle(key: Key, title: string) returns (r: CallResult<()>)
      requires Valid(key)
      modifies this, adapter, storage
      ensures storage.faults == old(storage.faults) + if r == Failure(StoreError(Unavailable)) then 1 else 0
      ensures Valid(key)
      ensures r.Success? ==>
                var plan := DecideOn(old(storage.state), key, parse, Op.LockTitle(title));
                && !plan.Refused?
                && (plan.Settled? ==> storage.state == old(storage.state))
                && (plan.Write? ==> Wrote(old(storage.state), storage.state, key, parse, Op.LockTitle(title)))
      ensures r.Success? ==> Kept(old(storage.state), storage.state, key, parse, Op.LockTitle(title))
      ensures r.Failure? ==> storage.state == old(storage.state)
      ensures r == Failure(AuditConflict) ==> old(BelievedMissing(key)) && key !in adapter.entries
      ensures r.Failure? ==> r.error in {StoreError(Unavailable), AuditConflict} || UnreadableLog(key)
    {
      EnsuredIsKept(storage.state, key, parse, Op.LockTitle(title));
      hide Kept, Performed, NothingToDo;
      var loaded := LoadForWrite(key);
      if loaded.Failure? { return Failure(loaded.error); }
      var expected := if loaded.value.Some? then Some(loaded.value.value.etag) else None;
      var log := if loaded.value.Some? then loaded.value.value.log else DEFAULT_LOG;
      if !log.titleLocked {
        log := log.(title := Some(title), titleLocked := true);
        var saved := SaveIfEtagMatches(key, log, expected);
        if saved.Failure? { return Failure(saved.error); }
        Remember(key, log, saved.value);
      }
      return Success(());
    }

    /** `delete`, of the log itself: this host then believes that there is none. */
    method Delete(key: Key) returns (r: CallResult<()>)
      requires Valid(key)
      modifies this, adapter, storage
      ensures storage.faults == old(storage.faults) + if r == Failure(StoreError(Unavailable)) then 1 else 0
      ensures Valid(key)
      ensures r.Success? ==>
                storage.state == Removed(old(storage.state), key) && BelievedMissing(key) && memo == old(memo) - {key}
      ensures r.Failure? ==>
                r.error == StoreError(Unavailable) && storage.state == old(storage.state) && memo == old(memo)
    {
      var gone := adapter.DeleteObject(key);
      if gone.Err? { return Failure(StoreError(gone.error)); }
      memo := memo - {key};
      return Success(());
    }

    /** `get`: the stored log, unless the adapter believes that there is none. It returns a log
        of another schema exactly when the memo holds one under the etag now present. */
    method Get(key: Key) returns (r: CallResult<ThreadLog>)
      requires Valid(key)
      modifies this, adapter, storage`faults
      ensures storage.faults == old(storage.faults) + if r == Failure(StoreError(Unavailable)) then 1 else 0
      ensures Valid(key) && storage.state == old(storage.state)
      ensures r.Success? ==> DocIn(storage.state, key, parse) == Some(LogDoc(r.value))
      ensures r.Success? ==> (!GoodLog(LogDoc(r.value)) <==>
                              old(ServedFromMemo(key)) && !GoodLog(LogDoc(old(memo)[key].log)))
      ensures old(ServedFromMemo(key)) ==> r in {Success(old(memo)[key].log), Failure(StoreError(Unavailable))}
      ensures old(BelievedMissing(key)) || key !in storage.state.objects ==>
                r in {Failure(StoreError(NotFound)), Failure(StoreError(Unavailable))}
      ensures r.Failure? ==>
                || r.error == StoreError(Unavailable)
                || (r.error == StoreError(NotFound) && (old(BelievedMissing(key)) || key !in storage.state.objects))
                || (UnreadableLog(key) && r.error in {StoreError(BadJson), NotALog, SchemaMismatch})
      ensures r.Success? ==> key in memo && memo[key].log == r.value && HeadOf(storage.state, key) == Some(memo[key].etag)
    {
      var head := adapter.HeadEtag(key);
      if head.Err? { return Failure(StoreError(head.error)); }
      if head.value.Some? && key in memo && memo[key].etag == head.value.value {
        return Success(memo[key].log);
      }
      var body := adapter.GetJson(key);
      if body.Err? { return Failure(StoreError(body.error)); }
      if !body.value.LogDoc? { return Failure(NotALog); }
      var log := body.value.log;
      if log.schemaVersion != THREAD_SCHEMA_VERSION { return Failure(SchemaMismatch); }
      if head.value.Some? { Remember(key, log, head.value.value); }
      return Success(log);
    }
  }
}
