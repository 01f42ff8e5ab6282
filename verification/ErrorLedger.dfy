/** The ledger of recent errors: an exact least-recently-recorded list of eight. */
module ErrorLedger {
  import opened Text
  import opened Widths

  const LEDGER_CAP: nat := 8
  const LEDGER_EXCERPT_CHARS: nat := 400

  datatype LedgerEntry = LedgerEntry(fingerprint: string, count: nat, excerpt: string)
  datatype Failure = Failure(fingerprint: string, excerpt: string)

  function TruncateChars(s: string, n: nat): string {
    if |s| <= n then s else s[..n]
  }

  function SaturatingInc(n: nat): nat {
    if n >= U16_MAX then U16_MAX else n + 1
  }

  /** The first entry with a fingerprint. */
  function Position(entries: seq<LedgerEntry>, f: string): (r: Option<nat>)
    ensures r.Some? ==> r.value < |entries| && entries[r.value].fingerprint == f
    ensures r.None? ==> forall i :: 0 <= i < |entries| ==> entries[i].fingerprint != f
  {
    if entries == [] then None
    else if entries[0].fingerprint == f then Some(0)
    else
      var r := Position(entries[1..], f);
      if r.None? then None else Some(r.value + 1)
  }

  function Without<T>(s: seq<T>, i: nat): seq<T>
    requires i < |s|
  {
    s[..i] + s[i + 1..]
  }

  function Record(entries: seq<LedgerEntry>, x: Failure): seq<LedgerEntry> {
    var excerpt := TruncateChars(x.excerpt, LEDGER_EXCERPT_CHARS);
    match Position(entries, x.fingerprint)
    case Some(i) =>
      Without(entries, i) + [LedgerEntry(x.fingerprint, SaturatingInc(entries[i].count), excerpt)]
    case None =>
      (if |entries| >= LEDGER_CAP then entries[1..] else entries) + [LedgerEntry(x.fingerprint, 1, excerpt)]
  }

  // ---- Printing ----------------------------------------------------------------------------

  function Decimal(n: nat): string {
    (if n < 10 then "" else Decimal(n / 10)) + [('0' as int + n % 10) as char]
  }

  function ValueOf(s: string): int {
    if s == [] then 0 else 10 * ValueOf(s[..|s| - 1]) + (s[|s| - 1] as int - '0' as int)
  }

  predicate Digits(s: string) {
    s != [] && (forall i :: 0 <= i < |s| ==> '0' <= s[i] <= '9') && (s[0] == '0' ==> |s| == 1)
  }

  lemma {:induction false} DecimalDigits(n: nat)
    ensures Digits(Decimal(n)) && (n > 0 ==> Decimal(n)[0] != '0')
  {
    if n < 10 {
      assert Decimal(n) == [('0' as int + n) as char];
    } else {
      DecimalDigits(n / 10);
    }
  }

  /** A printed number reads back as itself. */
  lemma {:induction false} DecimalReadsBack(n: nat)
    ensures Digits(Decimal(n)) && ValueOf(Decimal(n)) == n
  {
    DecimalDigits(n);
    hide Digits;
    var last := ('0' as int + n % 10) as char;
    if n < 10 {
      assert Decimal(n) == [last];
    } else {
      DecimalReadsBack(n / 10);
      assert Decimal(n) == Decimal(n / 10) + [last];
      assert Decimal(n)[..|Decimal(n)| - 1] == Decimal(n / 10);
    }
  }

  function EntryText(e: LedgerEntry): string {
    "\n- " + e.fingerprint + " (" + Decimal(e.count) + "x): " + e.excerpt
  }

  function EntriesText(entries: seq<LedgerEntry>): string {
    if entries == [] then "Known failures:"
    else EntriesText(entries[..|entries| - 1]) + EntryText(entries[|entries| - 1])
  }

  function LedgerText(entries: seq<LedgerEntry>): Option<string> {
    if |entries| == 0 then None else Some(EntriesText(entries))
  }

  lemma Regroup(head: string, d: string, x: string, y: string, rest: string)
    ensures head + d + (x + y) + rest == head + (d + (x + (y + rest)))
  {
  }

  lemma DigitsEndAtX(head: string, d: string, a: string, d': string, b: string)
    requires Digits(d) && Digits(d') && head + (d + ("x" + a)) == head + (d' + ("x" + b))
    ensures d == d' && a == b
  {
    var s := d + ("x" + a);
    assert s == (head + s)[|head|..] == d' + ("x" + b);
    assert s[|d|] == 'x' && s[|d'|] == 'x';
    assert forall i :: 0 <= i < |d| ==> s[i] == d[i];
    assert forall i :: 0 <= i < |d'| ==> s[i] == d'[i];
    assert |d| == |d'|;
    assert d == s[..|d|] && d' == s[..|d|];
    assert a == s[|d| + 1..] && b == s[|d| + 1..];
  }

  /** An entry's line names it, counts it and quotes it. */
  lemma EntryTextShows(e: LedgerEntry)
    ensures exists count :: Digits(count) && ValueOf(count) == e.count
              && EntryText(e) == "\n- " + e.fingerprint + " (" + count + "x): " + e.excerpt
  {
    DecimalReadsBack(e.count);
    hide Digits, ValueOf, Decimal;
  }

  lemma SameRest(head: string, a: string, b: string)
    requires head + a == head + b
    ensures a == b
  {
    assert a == (head + a)[|head|..] && b == (head + b)[|head|..];
  }

  /** Lines of one fingerprint that look alike belong to equal entries. */
  lemma EntryTextTellsAll(e: LedgerEntry, e': LedgerEntry)
    requires e.fingerprint == e'.fingerprint && EntryText(e) == EntryText(e')
    ensures e == e'
  {
    DecimalReadsBack(e.count);
    DecimalReadsBack(e'.count);
    var head := "\n- " + e.fingerprint + " (";
    var d, d', tail := Decimal(e.count), Decimal(e'.count), "x" + "): ";
    assert tail == "x): ";
    assert EntryText(e) == head + d + tail + e.excerpt;
    assert EntryText(e') == head + d' + tail + e'.excerpt;
    hide EntryText, Digits, ValueOf, Decimal;
    Regroup(head, d, "x", "): ", e.excerpt);
    Regroup(head, d', "x", "): ", e'.excerpt);
    DigitsEndAtX(head, d, "): " + e.excerpt, d', "): " + e'.excerpt);
    SameRest("): ", e.excerpt, e'.excerpt);
  }

  // ---- The reference: what the history says ------------------------------------------------

  function Forget<T(==)>(fs: seq<T>, f: T): seq<T> {
    if fs == [] then []
    else if fs[0] == f then Forget(fs[1..], f)
    else [fs[0]] + Forget(fs[1..], f)
  }

  /** The distinct fingerprints of a history, the one recorded last at the end. */
  function ByLastUse(h: seq<Failure>): seq<string> {
    if h == [] then []
    else Forget(ByLastUse(h[..|h| - 1]), h[|h| - 1].fingerprint) + [h[|h| - 1].fingerprint]
  }

  /** The position just after the last record of `f`; zero when there is none. */
  function LastUse(h: seq<Failure>, f: string): (r: nat)
    ensures r <= |h|
  {
    if h == [] then 0
    else if h[|h| - 1].fingerprint == f then |h|
    else LastUse(h[..|h| - 1], f)
  }

  /** It is the last such position. */
  lemma {:induction false} LastUseIsLast(h: seq<Failure>, f: string)
    ensures var r := LastUse(h, f);
            && (r > 0 ==> h[r - 1].fingerprint == f)
            && (forall i :: r <= i < |h| ==> h[i].fingerprint != f)
  {
    if h != [] && h[|h| - 1].fingerprint != f { LastUseIsLast(h[..|h| - 1], f); }
  }

  function Newest<T>(fs: seq<T>): (r: seq<T>)
    ensures |r| == (if |fs| <= LEDGER_CAP then |fs| else LEDGER_CAP) && r == fs[|fs| - |r|..]
  {
    if |fs| <= LEDGER_CAP then fs else fs[|fs| - LEDGER_CAP..]
  }

  /** Records of `f` since it last entered, an entry being a record made while `f` was not
      among the eight most recent. */
  function SinceEntered(h: seq<Failure>, f: string): nat {
    if h == [] then 0
    else
      var before := h[..|h| - 1];
      if h[|h| - 1].fingerprint != f then SinceEntered(before, f)
      else 1 + if f in Newest(ByLastUse(before)) then SinceEntered(before, f) else 0
  }

  function LastExcerpt(h: seq<Failure>, f: string): string {
    var n := LastUse(h, f);
    if n == 0 then "" else h[n - 1].excerpt
  }

  function Capped(n: nat): nat {
    if n > U16_MAX then U16_MAX else n
  }

  function EntryOf(h: seq<Failure>, f: string): (e: LedgerEntry)
    ensures e.fingerprint == f
  {
    LedgerEntry(f, Capped(SinceEntered(h, f)), TruncateChars(LastExcerpt(h, f), LEDGER_EXCERPT_CHARS))
  }

  function Entries(h: seq<Failure>, fs: seq<string>): seq<LedgerEntry> {
    seq(|fs|, i requires 0 <= i < |fs| => EntryOf(h, fs[i]))
  }

  /** The eight most recent distinct fingerprints, each with its count and latest excerpt. */
  function Reference(h: seq<Failure>): seq<LedgerEntry> {
    Entries(h, Newest(ByLastUse(h)))
  }

  // ---- Recency -----------------------------------------------------------------------------

  ghost predicate Distinct<T>(fs: seq<T>) {
    forall i, j :: 0 <= i < j < |fs| ==> fs[i] != fs[j]
  }

  lemma {:induction false} ForgetAbsent<T>(fs: seq<T>, f: T)
    requires f !in fs
    ensures Forget(fs, f) == fs
  {
    if fs != [] { ForgetAbsent(fs[1..], f); }
  }

  lemma {:induction false} ForgetAt<T>(fs: seq<T>, i: nat)
    requires i < |fs| && Distinct(fs)
    ensures Forget(fs, fs[i]) == Without(fs, i)
    ensures fs[i] !in Forget(fs, fs[i])
  {
    if i == 0 {
      ForgetAbsent(fs[1..], fs[0]);
    } else {
      ForgetAt(fs[1..], i - 1);
      assert fs[1..][i - 1] == fs[i];
      assert Without(fs, i) == [fs[0]] + Without(fs[1..], i - 1);
    }
  }

  lemma WithoutKeeps<T>(fs: seq<T>, i: nat, rank: T -> nat)
    requires i < |fs| && Distinct(fs)
    requires forall i, j :: 0 <= i < j < |fs| ==> rank(fs[i]) < rank(fs[j])
    ensures var to := Without(fs, i);
            && (forall g :: g in to <==> g in fs && g != fs[i])
            && (forall i, j :: 0 <= i < j < |to| ==> rank(to[i]) < rank(to[j]))
  {
    var to := Without(fs, i);
    assert |to| == |fs| - 1;
    assert forall k :: 0 <= k < |to| ==> to[k] == fs[if k < i then k else k + 1];
    hide Without;
    forall k | 0 <= k < |fs| && k != i ensures fs[k] in to {
      assert to[if k < i then k else k - 1] == fs[k];
    }
  }

  /** Moving an element to the end keeps the others, in order. */
  lemma MoveToEnd<T>(fs: seq<T>, f: T, rank: T -> nat)
    requires Distinct(fs)
    requires forall i, j :: 0 <= i < j < |fs| ==> rank(fs[i]) < rank(fs[j])
    ensures var to := Forget(fs, f);
            && (forall g :: g in to <==> g in fs && g != f)
            && (forall i, j :: 0 <= i < j < |to| ==> rank(to[i]) < rank(to[j]))
  {
    if f in fs {
      var i :| 0 <= i < |fs| && fs[i] == f;
      ForgetAt(fs, i);
      WithoutKeeps(fs, i, rank);
    } else {
      ForgetAbsent(fs, f);
    }
  }

  lemma SortedIsDistinct<T>(fs: seq<T>, rank: T -> nat)
    requires forall i, j :: 0 <= i < j < |fs| ==> rank(fs[i]) < rank(fs[j])
    ensures Distinct(fs)
  {
  }

  /** What determines the order: every fingerprint of the history once, by its last record. */
  lemma {:induction false} ByLastUseIsSorted(h: seq<Failure>)
    ensures forall f :: f in ByLastUse(h) <==> LastUse(h, f) > 0
    ensures forall i, j :: 0 <= i < j < |ByLastUse(h)| ==> LastUse(h, ByLastUse(h)[i]) < LastUse(h, ByLastUse(h)[j])
    ensures Distinct(ByLastUse(h))
  {
    if h != [] {
      var before, f := h[..|h| - 1], h[|h| - 1].fingerprint;
      var older := ByLastUse(before);
      ByLastUseIsSorted(before);
      forall g ensures LastUse(h, g) == if g == f then |h| else LastUse(before, g) {}
      MoveToEnd(older, f, g => LastUse(before, g));
      var to := Forget(older, f);
      assert ByLastUse(h) == to + [f];
      hide LastUse, Forget, ByLastUse;
      forall i, j | 0 <= i < j < |to + [f]| ensures LastUse(h, (to + [f])[i]) < LastUse(h, (to + [f])[j]) {
        assert to[i] in to;
        if j < |to| { assert to[j] in to; }
      }
      SortedIsDistinct(to + [f], g => LastUse(h, g));
    }
  }

  lemma NewestOfCut<T>(fs: seq<T>, k: nat, f: T)
    requires k < |fs|
    ensures var n := |Newest(fs)|;
            Newest(Without(fs, k) + [f])
            == (if k >= |fs| - n then Without(Newest(fs), k - (|fs| - n)) else Newest(fs)[1..]) + [f]
  {
    hide Newest;
    var cut := Without(fs, k) + [f];
    var skip := |fs| - |Newest(fs)|;
    assert |cut| == |fs|;
    if k >= skip {
      assert cut[skip..] == Without(fs[skip..], k - skip) + [f];
    } else {
      assert cut[skip..] == fs[skip + 1..] + [f] == fs[skip..][1..] + [f];
    }
  }

  /** Eight are enough: the newest of a longer history follow from the newest of a shorter one. */
  lemma NewestAfterRepeat<T>(fs: seq<T>, i: nat)
    requires Distinct(fs) && i < |Newest(fs)|
    ensures var f := Newest(fs)[i]; Newest(Forget(fs, f) + [f]) == Without(Newest(fs), i) + [f]
  {
    hide Newest, Forget, Without;
    var skip := |fs| - |Newest(fs)|;
    var f := Newest(fs)[i];
    assert f == fs[skip + i];
    ForgetAt(fs, skip + i);
    hide Distinct;
    NewestOfCut(fs, skip + i, f);
  }

  lemma {:induction false} NewestAfterNew<T>(fs: seq<T>, f: T)
    requires Distinct(fs) && f !in Newest(fs)
    ensures Newest(Forget(fs, f) + [f])
         == (if |Newest(fs)| == LEDGER_CAP then Newest(fs)[1..] else Newest(fs)) + [f]
  {
    hide Newest, Forget, Without;
    if f in fs {
      var k :| 0 <= k < |fs| && fs[k] == f;
      ForgetAt(fs, k);
      hide Distinct;
      var skip := |fs| - |Newest(fs)|;
      forall j | skip <= j < |fs| ensures fs[j] != f {
        assert fs[skip..][j - skip] == fs[j];
      }
      NewestOfCut(fs, k, f);
    } else {
      ForgetAbsent(fs, f);
      assert |fs| >= LEDGER_CAP ==> Newest(fs + [f]) == (fs + [f])[|fs| + 1 - LEDGER_CAP..];
    }
  }

  // ---- The theorem -------------------------------------------------------------------------

  lemma EntryOfOthers(h: seq<Failure>, x: Failure, g: string)
    requires g != x.fingerprint
    ensures EntryOf(h + [x], g) == EntryOf(h, g)
  {
    var h' := h + [x];
    hide Newest, ByLastUse, TruncateChars;
    assert h'[..|h|] == h && h'[|h|] == x;
    assert LastUse(h', g) == LastUse(h, g);
    assert SinceEntered(h', g) == SinceEntered(h, g);
    hide SinceEntered, LastUse;
    assert LastExcerpt(h', g) == LastExcerpt(h, g);
  }

  lemma EntryOfRecorded(h: seq<Failure>, x: Failure)
    ensures var e := EntryOf(h + [x], x.fingerprint);
            && e.excerpt == TruncateChars(x.excerpt, LEDGER_EXCERPT_CHARS)
            && e.count == (if x.fingerprint in Newest(ByLastUse(h))
                           then SaturatingInc(EntryOf(h, x.fingerprint).count) else 1)
  {
    var h' := h + [x];
    hide Newest, ByLastUse, TruncateChars;
    assert h'[..|h|] == h && h'[|h|] == x;
    assert LastUse(h', x.fingerprint) == |h'|;
  }

  lemma EntriesPieces(h: seq<Failure>, r: seq<string>)
    ensures forall i :: 0 <= i < |r| ==> Entries(h, Without(r, i)) == Without(Entries(h, r), i)
    ensures r != [] ==> Entries(h, r[1..]) == Entries(h, r)[1..]
  {
    hide EntryOf;
  }

  lemma {:induction false} PositionOfEntries(h: seq<Failure>, fs: seq<string>, f: string)
    requires Distinct(fs)
    ensures match Position(Entries(h, fs), f)
            case Some(i) => i < |fs| && fs[i] == f && f !in Without(fs, i)
            case None => f !in fs
  {
    forall i | 0 <= i < |fs| ensures Entries(h, fs)[i].fingerprint == fs[i] {}
    hide EntryOf;
  }

  lemma EntriesExtend(h: seq<Failure>, x: Failure, kept: seq<string>)
    requires x.fingerprint !in kept
    ensures Entries(h + [x], kept + [x.fingerprint]) == Entries(h, kept) + [EntryOf(h + [x], x.fingerprint)]
  {
    forall i | 0 <= i < |kept| ensures EntryOf(h + [x], kept[i]) == EntryOf(h, kept[i]) {
      EntryOfOthers(h, x, kept[i]);
    }
    hide EntryOf;
  }

  lemma {:induction false} RecordExtends(h: seq<Failure>, x: Failure, r: seq<string>)
    requires Distinct(r) && |r| <= LEDGER_CAP
    requires EntryOf(h + [x], x.fingerprint)
          == LedgerEntry(x.fingerprint, if x.fingerprint in r then SaturatingInc(EntryOf(h, x.fingerprint).count) else 1,
                         TruncateChars(x.excerpt, LEDGER_EXCERPT_CHARS))
    ensures x.fingerprint !in r ==>
              Record(Entries(h, r), x) == Entries(h + [x], (if |r| == LEDGER_CAP then r[1..] else r) + [x.fingerprint])
    ensures forall i :: 0 <= i < |r| && r[i] == x.fingerprint ==>
              Record(Entries(h, r), x) == Entries(h + [x], Without(r, i) + [x.fingerprint])
  {
    hide EntryOf, Position, TruncateChars, SaturatingInc;
    PositionOfEntries(h, r, x.fingerprint);
    EntriesPieces(h, r);
    match Position(Entries(h, r), x.fingerprint) {
      case Some(i) =>
        forall j | 0 <= j < |r| && r[j] == x.fingerprint ensures j == i {}
        hide Distinct;
        EntriesExtend(h, x, Without(r, i));
        assert Entries(h, r)[i] == EntryOf(h, x.fingerprint);
        hide Without, Entries;
      case None =>
        hide Without, Distinct;
        EntriesExtend(h, x, if |r| == LEDGER_CAP then r[1..] else r);
    }
  }

  /** The newest fingerprints before and after one more record. */
  lemma {:induction false} NewestMoves(h: seq<Failure>, x: Failure)
    ensures var f, r, r' := x.fingerprint, Newest(ByLastUse(h)), Newest(ByLastUse(h + [x]));
            && Distinct(r)
            && (f !in r ==> r' == (if |r| == LEDGER_CAP then r[1..] else r) + [f])
            && (f in r ==> exists i :: 0 <= i < |r| && r[i] == f && r' == Without(r, i) + [f])
  {
    hide LastUse, Newest, Without, Forget;
    var f, all := x.fingerprint, ByLastUse(h);
    var r := Newest(all);
    ByLastUseIsSorted(h);
    assert Distinct(r);
    hide Distinct;
    assert ByLastUse(h + [x]) == Forget(all, f) + [f] by { assert (h + [x])[..|h|] == h; }
    hide ByLastUse;
    if f in r {
      var i :| 0 <= i < |r| && r[i] == f;
      NewestAfterRepeat(all, i);
    } else {
      NewestAfterNew(all, f);
    }
  }

  /** Recording a failure takes the reference of a history to the reference of the longer one:
      the ledger is an exact recency list. */
  lemma {:induction false} LedgerIsLru(h: seq<Failure>, x: Failure)
    ensures Record(Reference(h), x) == Reference(h + [x])
  {
    hide EntryOf, Newest, Distinct, ByLastUse, Entries, Record, Without;
    NewestMoves(h, x);
    EntryOfRecorded(h, x);
    RecordExtends(h, x, Newest(ByLastUse(h)));
  }

  /** Consequences for a reader: at most eight entries, no fingerprint twice. */
  lemma ReferenceShape(h: seq<Failure>)
    ensures |Reference(h)| <= LEDGER_CAP
    ensures forall i, j :: 0 <= i < j < |Reference(h)| ==> Reference(h)[i].fingerprint != Reference(h)[j].fingerprint
  {
    ByLastUseIsSorted(h);
  }

  // ---- The object --------------------------------------------------------------------------

  /** `ErrorLedger`. */
  class Ledger {
    var entries: seq<LedgerEntry>
    ghost var history: seq<Failure>

    constructor ()
      ensures entries == [] && history == []
    {
      entries, history := [], [];
    }

    ghost predicate Valid()
      reads this
    {
      entries == Reference(history)
    }

    /** The position of a fingerprint. */
    method Find(fingerprint: string) returns (idx: nat)
      ensures idx <= |entries|
      ensures Position(entries, fingerprint) == if idx < |entries| then Some(idx) else None
    {
      idx := 0;
      while idx < |entries| && entries[idx].fingerprint != fingerprint
        invariant 0 <= idx <= |entries|
        invariant Position(entries, fingerprint)
               == (var r := Position(entries[idx..], fingerprint); if r.None? then None else Some(r.value + idx))
      {
        assert entries[idx..][1..] == entries[idx + 1..];
        idx := idx + 1;
      }
    }

    method RecordFailure(fingerprint: string, excerpt: string)
      requires Valid()
      modifies this
      ensures Valid() && history == old(history) + [Failure(fingerprint, excerpt)]
    {
      hide Reference, TruncateChars, SaturatingInc, Position;
      LedgerIsLru(history, Failure(fingerprint, excerpt));
      history := history + [Failure(fingerprint, excerpt)];
      var text := TruncateChars(excerpt, LEDGER_EXCERPT_CHARS);
      var idx := Find(fingerprint);
      if idx < |entries| {
        var e := entries[idx];
        entries := entries[..idx] + entries[idx + 1..];
        e := e.(count := SaturatingInc(e.count), excerpt := text);
        entries := entries + [e];
        return;
      }
      if |entries| >= LEDGER_CAP { entries := entries[1..]; }
      entries := entries + [LedgerEntry(fingerprint, 1, text)];
    }

    method Render() returns (r: Option<string>)
      ensures r == LedgerText(entries)
    {
      if entries == [] { return None; }
      var out := "Known failures:";
      for i := 0 to |entries|
        invariant out == EntriesText(entries[..i])
      {
        assert entries[..i + 1][..i] == entries[..i];
        out := out + EntryText(entries[i]);
      }
      assert entries[..|entries|] == entries;
      return Some(out);
    }
  }
}
