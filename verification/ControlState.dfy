/** `ControlStateStore` over the caching adapter: what one `mutate`, `load` or `delete` does when
    no peer writes while it runs, whatever peers wrote before. */
module ControlState {
  import opened Text
  import opened ThreadTypes
  import opened Storage
  import opened ThreadStore

  datatype Versioned = Versioned(value: Doc, etag: Etag)

  datatype ControlError = BadEnvelope | RejectedByCaller | WriteConflict | Broken(error: StorageError)
  datatype Outcome<+T> = Done(value: T) | Failed(error: ControlError)

  class ControlStateStore {
    const adapter: CachingStorageAdapter
    const storage: BackingStore
    const parse: string -> Option<Doc>

    constructor (adapter: CachingStorageAdapter)
      ensures this.adapter == adapter && storage == adapter.inner && parse == adapter.parse
    {
      this.adapter := adapter;
      this.storage := adapter.inner;
      this.parse := adapter.parse;
    }

    /** A body cached under the etag now present is the body now present, and no body of this
        key is held without an etag. */
    ghost predicate Valid(key: Key)
      reads this, adapter, storage
    {
      && storage == adapter.inner && parse == adapter.parse
      && (key in storage.state.objects ==> storage.state.objects[key].etag < storage.state.clock)
      && (key in adapter.entries && adapter.entries[key].Bytes? ==>
            && adapter.entries[key].tag.Some? && adapter.entries[key].tag.value < storage.state.clock
            && (HeadOf(storage.state, key) == adapter.entries[key].tag
                ==> AlikeBlob(adapter.entries[key].blob, storage.state.objects[key].blob)))
    }

    ghost predicate BelievedMissing(key: Key)
      reads adapter
    {
      key in adapter.entries && adapter.entries[key].Missing?
    }

    /** The payload that the store holds for a suite: none if the state is absent or foreign. */
    ghost function PayloadIn(key: Key, suite: string): Option<string>
      reads this, storage
    {
      PayloadFor(suite, DocIn(storage.state, key, parse))
    }

    ghost predicate MalformedState(key: Key, suite: string)
      reads this, storage
    {
      && key in storage.state.objects
      && (DocIn(storage.state, key, parse).None? || Decode(DocIn(storage.state, key, parse).value, suite).Malformed?)
    }

    method LoadRaw(key: Key) returns (r: Outcome<Option<Versioned>>)
      requires Valid(key)
      modifies adapter, storage`faults
      ensures storage.faults == old(storage.faults) + if r == Failed(Broken(Unavailable)) then 1 else 0
      ensures Valid(key) && storage.state == old(storage.state)
      ensures r.Done? && r.value.None? ==> old(BelievedMissing(key)) || key !in storage.state.objects
      ensures r.Done? && r.value.Some? ==>
                && HeadOf(storage.state, key) == Some(r.value.value.etag)
                && DocIn(storage.state, key, parse) == Some(r.value.value.value)
      ensures r.Failed? ==> r.error == Broken(Unavailable)
                            || (r.error == Broken(BadJson) && key in storage.state.objects
                                && DocIn(storage.state, key, parse).None?)
    {
      var head := adapter.HeadEtag(key);
      if head.Err? { return Failed(Broken(head.error)); }
      if head.value.None? { return Done(None); }
      var body := adapter.GetJson(key);
      if body.Err? { return Failed(Broken(body.error)); }
      return Done(Some(Versioned(body.value, head.value.value)));
    }

    method SaveRawIfEtagMatches(key: Key, doc: Doc, expected: Option<Etag>) returns (r: Outcome<()>)
      requires Valid(key)
      modifies adapter, storage
      ensures storage.faults == old(storage.faults) + if r == Failed(Broken(Unavailable)) then 1 else 0
      ensures Valid(key)
      ensures r.Done? ==>
                && HeadOf(old(storage.state), key) == expected
                && storage.state == Stored(old(storage.state), key, Printed(doc, storage.compact))
      ensures r.Failed? ==> storage.state == old(storage.state)
      ensures r.Failed? ==> r.error == Broken(Unavailable)
                            || (r.error == WriteConflict && HeadOf(storage.state, key) != expected
                                && key !in adapter.entries)
    {
      var status := adapter.PutJsonIfEtagMatches(key, doc, expected);
      match status {
        case Err(e) => return Failed(Broken(e));
        case Ok(Written(_)) => return Done(());
        case Ok(Conflict(_)) => return Failed(WriteConflict);
      }
    }

    /** `mutate`: the caller's function applied once to its suite's payload in the store, or to
        none if the state is absent or another suite's, and its result stored. A conflict is
        reported and not retried; without a peer it can only come from a stale belief that the
        object is missing, and the next call is free of it. */
    method Mutate(key: Key, suite: string, f: Option<string> -> Option<string>) returns (r: Outcome<string>)
      requires Valid(key)
      modifies adapter, storage
      ensures storage.faults == old(storage.faults) + if r == Failed(Broken(Unavailable)) then 1 else 0
      ensures Valid(key)
      ensures r.Done? ==>
                && Wrote(old(storage.state), storage.state, key, parse, Op.Mutate(suite, f))
                && DecideOn(old(storage.state), key, parse, Op.Mutate(suite, f)).next == Encode(suite, r.value)
      ensures r.Failed? ==> storage.state == old(storage.state)
      ensures r.Done? ==>
                && f(old(PayloadIn(key, suite))) == Some(r.value)
                && DocIn(storage.state, key, parse) == Some(Encode(suite, r.value))
                && storage.state.objects.Keys == old(storage.state).objects.Keys + {key}
                && forall k :: k in old(storage.state).objects && k != key ==>
                     storage.state.objects[k] == old(storage.state).objects[k]
      ensures r.Failed? && !old(BelievedMissing(key)) ==>
                || r.error == Broken(Unavailable)
                || (r.error == RejectedByCaller && f(old(PayloadIn(key, suite))).None?)
                || (r.error in {BadEnvelope, Broken(BadJson)} && MalformedState(key, suite))
      ensures r == Failed(WriteConflict) ==> old(BelievedMissing(key)) && key !in adapter.entries
      ensures r.Failed? && r.error != Broken(Unavailable) && !old(BelievedMissing(key)) ==>
                DecideOn(old(storage.state), key, parse, Op.Mutate(suite, f)).Refused?
    {
      var loaded := LoadRaw(key);
      if loaded.Failed? { return Failed(loaded.error); }
      var expected, current := None, None;
      if loaded.value.Some? {
        expected := Some(loaded.value.value.etag);
        match Decode(loaded.value.value.value, suite) {
          case Malformed => return Failed(BadEnvelope);
          case Foreign => current := None;
          case Readable(p) => current := Some(p);
        }
      }
      var next := f(current);
      if next.None? { return Failed(RejectedByCaller); }
      var saved := SaveRawIfEtagMatches(key, Encode(suite, next.value), expected);
      if saved.Failed? { return Failed(saved.error); }
      return Done(next.value);
    }

    /** `save`: an unconditional overwrite, remembered without an etag, which is why `Valid` does
        not survive it. */
    method Save(key: Key, suite: string, payload: string) returns (r: Outcome<()>)
      requires storage == adapter.inner
      modifies adapter, storage
      ensures storage.faults == old(storage.faults) + if r == Failed(Broken(Unavailable)) then 1 else 0
      ensures r.Done? ==>
                && storage.state == Stored(old(storage.state), key, Printed(Encode(suite, payload), true))
                && adapter.entries == old(adapter.entries)[key := Bytes(Printed(Encode(suite, payload), true), None)]
      ensures r.Failed? ==> storage.state == old(storage.state) && adapter.entries == old(adapter.entries)
    {
      var put := adapter.PutJson(key, Encode(suite, payload));
      if put.Err? { return Failed(Broken(put.error)); }
      return Done(());
    }

    /** `delete`: this host then believes that there is no state. */
    method Delete(key: Key) returns (r: Outcome<()>)
      requires Valid(key)
      modifies adapter, storage
      ensures storage.faults == old(storage.faults) + if r == Failed(Broken(Unavailable)) then 1 else 0
      ensures Valid(key)
      ensures r.Done? ==> storage.state == Removed(old(storage.state), key) && BelievedMissing(key)
      ensures r.Failed? ==> r.error == Broken(Unavailable) && storage.state == old(storage.state)
    {
      var gone := adapter.DeleteObject(key);
      if gone.Err? { return Failed(Broken(gone.error)); }
      return Done(());
    }

    /** `load`: a payload only for the suite that wrote it. */
    method Load(key: Key, suite: string) returns (r: Outcome<Option<string>>)
      requires Valid(key)
      modifies adapter, storage`faults
      ensures storage.faults == old(storage.faults) + if r == Failed(Broken(Unavailable)) then 1 else 0
      ensures Valid(key) && storage.state == old(storage.state)
      ensures r.Done? && r.value.Some? ==>
                DocIn(storage.state, key, parse).Some?
                && Decode(DocIn(storage.state, key, parse).value, suite) == Readable(r.value.value)
      ensures r.Done? && !old(BelievedMissing(key)) ==> r.value == PayloadIn(key, suite)
      ensures r.Failed? ==>
                r.error == Broken(Unavailable)
                || (r.error in {BadEnvelope, Broken(BadJson)} && MalformedState(key, suite))
      ensures r == Done(None) && !old(BelievedMissing(key)) ==>
                key !in storage.state.objects
                || (DocIn(storage.state, key, parse).Some?
                    && Decode(DocIn(storage.state, key, parse).value, suite).Foreign?)
    {
      var loaded := LoadRaw(key);
      if loaded.Failed? { return Failed(loaded.error); }
      if loaded.value.None? { return Done(None); }
      match Decode(loaded.value.value.value, suite) {
        case Malformed => return Failed(BadEnvelope);
        case Foreign => return Done(None);
        case Readable(p) => return Done(Some(p));
      }
    }
  }

  /** A stored state is read back by its own suite and by no other, and the suites' ids count up
      to trimming. */
  lemma MutatedIsLoadedBack(before: Backing, after: Backing, key: Key, parse: string -> Option<Doc>,
                            suite: string, f: Option<string> -> Option<string>, reader: string)
    requires Wrote(before, after, key, parse, Op.Mutate(suite, f))
    ensures var doc := DocIn(after, key, parse);
            && doc.Some?
            && (Decode(doc.value, reader).Readable? <==> Trim(reader) == Trim(suite))
            && !Decode(doc.value, reader).Malformed?
  {
    var op := Op.Mutate(suite, f);
    var next := DecideOn(before, key, parse, op).next;
    assert exists p :: next == Encode(suite, p);
    var p :| next == Encode(suite, p);
    DecodeEncode(suite, reader, p);
  }
}
