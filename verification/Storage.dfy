/** The backing store and the caching adapter over it, as objects that change in place, and the
    promise that the adapter is invisible to a sole writer. */
module Storage {
  import opened Text
  import opened ThreadTypes

  type Key = string

  /** Stored bytes: written as they are, or printed from a JSON value in one of two layouts.
      The adapter prints compactly; a backing store prints the way it likes. */
  datatype Blob = Raw(content: string) | Printed(doc: Doc, compact: bool)

  datatype Object = Object(blob: Blob, etag: Etag)

  /** `clock` is the next etag; no etag is handed out twice. */
  datatype Backing = Backing(objects: map<Key, Object>, clock: Etag)

  datatype CacheEntry = Bytes(blob: Blob, tag: Option<Etag>) | Missing

  datatype StorageError = NotFound | Unavailable | BadJson
  datatype Result<+T> = Ok(value: T) | Err(error: StorageError)
  datatype WriteStatus = Written(etag: Etag) | Conflict(current: Option<Etag>)

  function HeadOf(b: Backing, key: Key): Option<Etag> {
    if key in b.objects then Some(b.objects[key].etag) else None
  }

  function BodyOf(b: Backing, key: Key): Result<Blob> {
    if key in b.objects then Ok(b.objects[key].blob) else Err(NotFound)
  }

  function Stored(b: Backing, key: Key, blob: Blob): Backing {
    Backing(b.objects[key := Object(blob, b.clock)], b.clock + 1)
  }

  function Removed(b: Backing, key: Key): Backing {
    b.(objects := b.objects - {key})
  }

  function StoredIf(b: Backing, key: Key, blob: Blob, expected: Option<Etag>): (Backing, WriteStatus) {
    if HeadOf(b, key) == expected then (Stored(b, key, blob), Written(b.clock))
    else (b, Conflict(HeadOf(b, key)))
  }

  /** JSON read back from bytes; `parse` is the JSON parser on bytes it did not print. */
  function JsonOf(r: Result<Blob>, parse: string -> Option<Doc>): Result<Doc> {
    match r
    case Err(e) => Err(e)
    case Ok(Printed(doc, _)) => Ok(doc)
    case Ok(Raw(content)) => if parse(content).Some? then Ok(parse(content).value) else Err(BadJson)
  }

  // ---- The adapter as a function of its entries and the store ----------------------------

  type Entries = map<Key, CacheEntry>

  /** `get_bytes`: what is returned and the entries afterwards. */
  function ReadThrough(entries: Entries, b: Backing, key: Key): (Result<Blob>, Entries) {
    if key in entries && entries[key].Missing? then (Err(NotFound), entries)
    else if key in entries && (entries[key].tag.None? || HeadOf(b, key) == entries[key].tag) then
      (Ok(entries[key].blob), entries)
    else
      match BodyOf(b, key)
      case Ok(blob) => (Ok(blob), entries[key := Bytes(blob, HeadOf(b, key))])
      case Err(_) => (Err(NotFound), entries[key := Missing])
  }

  function HeadThrough(entries: Entries, b: Backing, key: Key): Option<Etag> {
    if key in entries && entries[key].Missing? then None else HeadOf(b, key)
  }

  function EntriesAfterPutIf(entries: Entries, key: Key, doc: Doc, status: WriteStatus): Entries {
    match status
    case Written(etag) => entries[key := Bytes(Printed(doc, true), Some(etag))]
    case Conflict(_) => entries - {key}
  }

  // ---- The objects -----------------------------------------------------------------------

  /** The backing store. Every call may fail with a transient error, and then has no effect;
      `faults` counts those errors. */
  class BackingStore {
    const compact: bool
    var state: Backing
    ghost var faults: nat

    constructor (compact: bool)
      ensures state == Backing(map[], 0) && this.compact == compact && faults == 0
    {
      this.compact := compact;
      state := Backing(map[], 0);
      faults := 0;
    }

    function HeadEtagNow(key: Key): Option<Etag>
      reads this
    {
      HeadOf(state, key)
    }

    method HeadEtag(key: Key) returns (r: Result<Option<Etag>>)
      modifies this`faults
      ensures faults == old(faults) + if r == Err(Unavailable) then 1 else 0
      ensures r == Err(Unavailable) || r == Ok(HeadOf(state, key))
    {
      if * {
        faults := faults + 1;
        return Err(Unavailable);
      }
      return Ok(if key in state.objects then Some(state.objects[key].etag) else None);
    }

    method GetBytes(key: Key) returns (r: Result<Blob>)
      modifies this`faults
      ensures faults == old(faults) + if r == Err(Unavailable) then 1 else 0
      ensures r == Err(Unavailable) || r == BodyOf(state, key)
    {
      if * {
        faults := faults + 1;
        return Err(Unavailable);
      }
      if key !in state.objects { return Err(NotFound); }
      return Ok(state.objects[key].blob);
    }

    method PutBytes(key: Key, blob: Blob) returns (r: Result<()>)
      modifies this
      ensures faults == old(faults) + if r == Err(Unavailable) then 1 else 0
      ensures || (r == Err(Unavailable) && state == old(state))
              || (r == Ok(()) && state == Stored(old(state), key, blob))
    {
      if * {
        faults := faults + 1;
        return Err(Unavailable);
      }
      state := Backing(state.objects[key := Object(blob, state.clock)], state.clock + 1);
      return Ok(());
    }

    method PutJsonIfEtagMatches(key: Key, doc: Doc, expected: Option<Etag>) returns (r: Result<WriteStatus>)
      modifies this
      ensures faults == old(faults) + if r == Err(Unavailable) then 1 else 0
      ensures || (r == Err(Unavailable) && state == old(state))
              || (r.Ok? && (state, r.value) == StoredIf(old(state), key, Printed(doc, compact), expected))
    {
      if * {
        faults := faults + 1;
        return Err(Unavailable);
      }
      var current := HeadEtagNow(key);
      if current != expected { return Ok(Conflict(current)); }
      var etag := state.clock;
      state := Backing(state.objects[key := Object(Printed(doc, compact), etag)], etag + 1);
      return Ok(Written(etag));
    }

    method DeleteObject(key: Key) returns (r: Result<()>)
      modifies this
      ensures faults == old(faults) + if r == Err(Unavailable) then 1 else 0
      ensures || (r == Err(Unavailable) && state == old(state))
              || (r == Ok(()) && state == Removed(old(state), key))
    {
      if * {
        faults := faults + 1;
        return Err(Unavailable);
      }
      state := state.(objects := state.objects - {key});
      return Ok(());
    }
  }

  /** `CachingStorageAdapter`: every method is the function above, or fails without
      effect because the store did. */
  class CachingStorageAdapter {
    const inner: BackingStore
    const parse: string -> Option<Doc>
    var entries: Entries

    constructor (inner: BackingStore, parse: string -> Option<Doc>)
      ensures this.inner == inner && this.parse == parse && entries == map[]
    {
      this.inner := inner;
      this.parse := parse;
      entries := map[];
    }

    method GetBytes(key: Key) returns (r: Result<Blob>)
      modifies this, inner`faults
      ensures inner.faults == old(inner.faults) + if r == Err(Unavailable) then 1 else 0
      ensures || (r == Err(Unavailable) && entries == old(entries))
              || (r, entries) == ReadThrough(old(entries), inner.state, key)
    {
      if key in entries {
        match entries[key] {
          case Bytes(blob, Some(tag)) =>
            var head := inner.HeadEtag(key);
            if head.Err? { return Err(head.error); }
            if head.value == Some(tag) { return Ok(blob); }
          case Bytes(blob, None) => return Ok(blob);
          case Missing => return Err(NotFound);
        }
      }
      var tag := inner.HeadEtag(key);
      if tag.Err? { return Err(tag.error); }
      var body := inner.GetBytes(key);
      match body {
        case Ok(blob) => entries := entries[key := Bytes(blob, tag.value)];
        case Err(NotFound) => entries := entries[key := Missing];
        case Err(_) =>
      }
      return body;
    }

    method GetJson(key: Key) returns (r: Result<Doc>)
      modifies this, inner`faults
      ensures inner.faults == old(inner.faults) + if r == Err(Unavailable) then 1 else 0
      ensures || (r == Err(Unavailable) && entries == old(entries))
              || (r == JsonOf(ReadThrough(old(entries), inner.state, key).0, parse)
                  && entries == ReadThrough(old(entries), inner.state, key).1)
    {
      var body := GetBytes(key);
      match body {
        case Err(e) => return Err(e);
        case Ok(Printed(doc, _)) => return Ok(doc);
        case Ok(Raw(content)) =>
          if parse(content).Some? { return Ok(parse(content).value); }
          return Err(BadJson);
      }
    }

    method PutBytes(key: Key, blob: Blob) returns (r: Result<()>)
      modifies this, inner
      ensures inner.faults == old(inner.faults) + if r == Err(Unavailable) then 1 else 0
      ensures || (r == Err(Unavailable) && entries == old(entries) && inner.state == old(inner.state))
              || (r == Ok(()) && inner.state == Stored(old(inner.state), key, blob)
                  && entries == old(entries)[key := Bytes(blob, None)])
    {
      r := inner.PutBytes(key, blob);
      if r.Ok? { entries := entries[key := Bytes(blob, None)]; }
    }

    method PutJson(key: Key, doc: Doc) returns (r: Result<()>)
      modifies this, inner
      ensures inner.faults == old(inner.faults) + if r == Err(Unavailable) then 1 else 0
      ensures || (r == Err(Unavailable) && entries == old(entries) && inner.state == old(inner.state))
              || (r == Ok(()) && inner.state == Stored(old(inner.state), key, Printed(doc, true))
                  && entries == old(entries)[key := Bytes(Printed(doc, true), None)])
    {
      r := PutBytes(key, Printed(doc, true));
    }

    method PutJsonIfEtagMatches(key: Key, doc: Doc, expected: Option<Etag>) returns (r: Result<WriteStatus>)
      modifies this, inner
      ensures inner.faults == old(inner.faults) + if r == Err(Unavailable) then 1 else 0
      ensures || (r == Err(Unavailable) && entries == old(entries) && inner.state == old(inner.state))
              || (r.Ok?
                  && (inner.state, r.value) == StoredIf(old(inner.state), key, Printed(doc, inner.compact), expected)
                  && entries == EntriesAfterPutIf(old(entries), key, doc, r.value))
    {
      r := inner.PutJsonIfEtagMatches(key, doc, expected);
      match r {
        case Ok(Written(etag)) => entries := entries[key := Bytes(Printed(doc, true), Some(etag))];
        case Ok(Conflict(_)) => entries := entries - {key};
        case Err(_) =>
      }
    }

    method DeleteObject(key: Key) returns (r: Result<()>)
      modifies this, inner
      ensures inner.faults == old(inner.faults) + if r == Err(Unavailable) then 1 else 0
      ensures || (r == Err(Unavailable) && entries == old(entries) && inner.state == old(inner.state))
              || (r == Ok(()) && inner.state == Removed(old(inner.state), key)
                  && entries == old(entries)[key := Missing])
    {
      r := inner.DeleteObject(key);
      if r.Ok? { entries := entries[key := Missing]; }
    }

    method HeadEtag(key: Key) returns (r: Result<Option<Etag>>)
      modifies inner`faults
      ensures inner.faults == old(inner.faults) + if r == Err(Unavailable) then 1 else 0
      ensures r == Err(Unavailable) || r == Ok(HeadThrough(entries, inner.state, key))
    {
      if key in entries && entries[key].Missing? { return Ok(None); }
      r := inner.HeadEtag(key);
    }
  }

  // ---- A sole writer cannot tell the adapter from the store --------------------------------

  datatype Call =
    | CallGetBytes(key: Key)
    | CallGetJson(key: Key)
    | CallPutBytes(key: Key, content: string)
    | CallPutJson(key: Key, doc: Doc)
    | CallPutIf(key: Key, doc: Doc, expected: Option<Etag>)
    | CallDelete(key: Key)
    | CallHead(key: Key)

  datatype Answer = GotBytes(r: Result<Blob>) | GotJson(json: Result<Doc>) | Status(status: WriteStatus)
                  | Head(head: Option<Etag>) | Unit

  /** A call on the plain store, which prints JSON in its own layout. */
  function PlainCall(b: Backing, compact: bool, parse: string -> Option<Doc>, c: Call): (Backing, Answer) {
    match c
    case CallGetBytes(k) => (b, GotBytes(BodyOf(b, k)))
    case CallGetJson(k) => (b, GotJson(JsonOf(BodyOf(b, k), parse)))
    case CallPutBytes(k, content) => (Stored(b, k, Raw(content)), Unit)
    case CallPutJson(k, doc) => (Stored(b, k, Printed(doc, compact)), Unit)
    case CallPutIf(k, doc, expected) =>
      var (b', status) := StoredIf(b, k, Printed(doc, compact), expected);
      (b', Status(status))
    case CallDelete(k) => (Removed(b, k), Unit)
    case CallHead(k) => (b, Head(HeadOf(b, k)))
  }

  /** The same call through the adapter. */
  function CachedCall(b: Backing, entries: Entries, compact: bool, parse: string -> Option<Doc>, c: Call)
    : (Backing, Entries, Answer)
  {
    match c
    case CallGetBytes(k) =>
      var (r, entries') := ReadThrough(entries, b, k);
      (b, entries', GotBytes(r))
    case CallGetJson(k) =>
      var (r, entries') := ReadThrough(entries, b, k);
      (b, entries', GotJson(JsonOf(r, parse)))
    case CallPutBytes(k, content) =>
      (Stored(b, k, Raw(content)), entries[k := Bytes(Raw(content), None)], Unit)
    case CallPutJson(k, doc) =>
      (Stored(b, k, Printed(doc, true)), entries[k := Bytes(Printed(doc, true), None)], Unit)
    case CallPutIf(k, doc, expected) =>
      var (b', status) := StoredIf(b, k, Printed(doc, compact), expected);
      (b', EntriesAfterPutIf(entries, k, doc, status), Status(status))
    case CallDelete(k) => (Removed(b, k), entries[k := Missing], Unit)
    case CallHead(k) => (b, entries, Head(HeadThrough(entries, b, k)))
  }

  /** Equal bytes, or two printings of one JSON value. */
  predicate AlikeBlob(x: Blob, y: Blob) {
    x == y || (x.Printed? && y.Printed? && x.doc == y.doc)
  }

  predicate AlikeAnswer(x: Answer, y: Answer) {
    x == y || (x.GotBytes? && y.GotBytes? && x.r.Ok? && y.r.Ok? && AlikeBlob(x.r.value, y.r.value))
  }

  ghost predicate AlikeStore(x: Backing, y: Backing) {
    && x.clock == y.clock && x.objects.Keys == y.objects.Keys
    && forall k :: k in x.objects ==> x.objects[k].etag == y.objects[k].etag
                                      && AlikeBlob(x.objects[k].blob, y.objects[k].blob)
  }

  /** What a sole writer's entries always are: a body of the object present, or its absence. */
  ghost predicate Coherent(b: Backing, entries: Entries) {
    forall k :: k in entries ==>
      match entries[k]
      case Missing => k !in b.objects
      case Bytes(blob, tag) => k in b.objects && AlikeBlob(b.objects[k].blob, blob)
                               && (tag.Some? ==> tag == Some(b.objects[k].etag))
  }

  function PlainRun(b: Backing, compact: bool, parse: string -> Option<Doc>, calls: seq<Call>): seq<Answer>
    decreases |calls|
  {
    if calls == [] then []
    else
      var (b', a) := PlainCall(b, compact, parse, calls[0]);
      [a] + PlainRun(b', compact, parse, calls[1..])
  }

  function CachedRun(b: Backing, entries: Entries, compact: bool, parse: string -> Option<Doc>, calls: seq<Call>)
    : seq<Answer>
    decreases |calls|
  {
    if calls == [] then []
    else
      var (b', entries', a) := CachedCall(b, entries, compact, parse, calls[0]);
      [a] + CachedRun(b', entries', compact, parse, calls[1..])
  }

  predicate Reads(c: Call) {
    c.CallGetBytes? || c.CallGetJson? || c.CallHead?
  }

  lemma ReadAgrees(x: Backing, y: Backing, entries: Entries, compact: bool, parse: string -> Option<Doc>, c: Call)
    requires AlikeStore(x, y) && Coherent(y, entries) && Reads(c)
    ensures var (x', a) := PlainCall(x, compact, parse, c);
            var (y', entries', a') := CachedCall(y, entries, compact, parse, c);
            AlikeStore(x', y') && Coherent(y', entries') && AlikeAnswer(a, a')
  {
  }

  lemma WriteAgrees(x: Backing, y: Backing, entries: Entries, compact: bool, parse: string -> Option<Doc>, c: Call)
    requires AlikeStore(x, y) && Coherent(y, entries) && !Reads(c) && !c.CallPutIf?
    ensures var (x', a) := PlainCall(x, compact, parse, c);
            var (y', entries', a') := CachedCall(y, entries, compact, parse, c);
            AlikeStore(x', y') && Coherent(y', entries') && AlikeAnswer(a, a')
  {
    hide ReadThrough;
  }

  lemma PutIfAgrees(x: Backing, y: Backing, entries: Entries, compact: bool, parse: string -> Option<Doc>, c: Call)
    requires AlikeStore(x, y) && Coherent(y, entries) && c.CallPutIf?
    ensures var (x', a) := PlainCall(x, compact, parse, c);
            var (y', entries', a') := CachedCall(y, entries, compact, parse, c);
            AlikeStore(x', y') && Coherent(y', entries') && AlikeAnswer(a, a')
  {
    hide ReadThrough;
  }

  lemma CallAgrees(x: Backing, y: Backing, entries: Entries, compact: bool, parse: string -> Option<Doc>, c: Call)
    requires AlikeStore(x, y) && Coherent(y, entries)
    ensures var (x', a) := PlainCall(x, compact, parse, c);
            var (y', entries', a') := CachedCall(y, entries, compact, parse, c);
            AlikeStore(x', y') && Coherent(y', entries') && AlikeAnswer(a, a')
  {
    hide PlainCall, CachedCall, AlikeStore, Coherent, AlikeAnswer;
    if Reads(c) {
      ReadAgrees(x, y, entries, compact, parse, c);
    } else if c.CallPutIf? {
      PutIfAgrees(x, y, entries, compact, parse, c);
    } else {
      WriteAgrees(x, y, entries, compact, parse, c);
    }
  }

  /** Every sequence of calls by a sole writer gets the same answers with and without the
      adapter, bytes of JSON writes being compared as JSON. */
  lemma {:induction false} SoleWriterCannotTell(x: Backing, y: Backing, entries: Entries, compact: bool,
                                               parse: string -> Option<Doc>, calls: seq<Call>)
    requires AlikeStore(x, y) && Coherent(y, entries)
    ensures var plain := PlainRun(x, compact, parse, calls);
            var cached := CachedRun(y, entries, compact, parse, calls);
            |plain| == |cached| && forall i :: 0 <= i < |plain| ==> AlikeAnswer(plain[i], cached[i])
    decreases |calls|
  {
    if calls != [] {
      CallAgrees(x, y, entries, compact, parse, calls[0]);
      var (x', a) := PlainCall(x, compact, parse, calls[0]);
      var (y', entries', a') := CachedCall(y, entries, compact, parse, calls[0]);
      SoleWriterCannotTell(x', y', entries', compact, parse, calls[1..]);
    }
  }
}
