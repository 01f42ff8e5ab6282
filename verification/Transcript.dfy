/** The agent's transcript and the token window it is rendered through. */
module Transcript {
  import opened Text
  import opened ErrorLedger
  import opened Widths

  type Positive32 = n: nat | 1 <= n <= U32_MAX witness 1

  datatype Role = RoleSystem | RoleUser | RoleAssistant
  datatype Message = Message(role: Role, content: string)
  datatype Outcome = Ok(rendered: string) | Failed(message: string)

  datatype Entry =
    | System(text: string)
    | ToolCard(text: string)
    | OutputContract(text: string)
    | Prelude(text: string)
    | User(text: string)
    | Assistant(text: string)
    | Observation(tool: string, outcome: Outcome)
    | ParseRejected(text: string)
    | CompletionRejected(reason: string)

  // ---- Budgets -----------------------------------------------------------------------------

  function Min(a: nat, b: nat): nat { if a < b then a else b }
  function Max(a: nat, b: nat): nat { if a < b then b else a }
  function SatSub(a: nat, b: nat): nat { if a < b then 0 else a - b }
  function SatAdd32(a: nat, b: nat): nat { Min(a + b, U32_MAX) }

  datatype PromptBudget = PromptBudget(total: Positive32, perEntry: Positive32)
  {
    /** `usize` is 64 bits wide, so the saturating product is exact. */
    function PerEntryChars(): nat { 4 * perEntry }
  }

  /** Room left by the output reserve, and an eighth of it for one entry. */
  function FromModel(contextLength: nat, maxOutput: nat): (b: PromptBudget)
    requires contextLength <= U32_MAX && maxOutput <= U32_MAX
    ensures 1024 <= b.total < U32_MAX
    ensures 256 <= b.perEntry && (b.perEntry == 256 || 8 * b.perEntry <= b.total < 8 * b.perEntry + 8)
    ensures b.total < 2056 ==> b.perEntry == 256
    ensures b.total == Max(SatSub(Max(contextLength, 1024), Max(maxOutput, 1)), 1024)
    ensures contextLength >= 2048 && maxOutput <= contextLength - 1024 ==>
              b.total == contextLength - Max(maxOutput, 1)
  {
    var ctx := Max(contextLength, 1024);
    var reserved := Max(Min(maxOutput, SatSub(ctx, 512)), 1);
    var total := Max(SatSub(ctx, reserved), 1024);
    PromptBudget(total, Max(total / 8, 256))
  }

  // ---- Text --------------------------------------------------------------------------------

  const MARKER: string := " \U{2026}(truncated)"

  function TruncateEntry(s: string, maxChars: nat): (r: string)
    ensures |s| <= maxChars ==> r == s
    ensures maxChars >= 14 ==> |r| <= maxChars
    ensures |s| > maxChars ==>
              && |r| == (if maxChars >= 14 then maxChars - 1 else |MARKER|)
              && |r| - |MARKER| < |s| && r == s[..|r| - |MARKER|] + MARKER
  {
    if |s| <= maxChars then s
    else
      var kept := TruncateChars(s, SatSub(maxChars, 14));
      assert kept == s[..|kept|];
      kept + MARKER
  }

  /** `(chars / 4) as u32`, plus one; the cast wraps and the addition saturates. */
  function EstimateTokens(text: string): (t: nat)
    ensures 1 <= t <= U32_MAX
    ensures |text| / 4 < U32_MAX ==> t == |text| / 4 + 1
  {
    SatAdd32((|text| / 4) % (U32_MAX + 1), 1)
  }

  function RoleOf(e: Entry): Role {
    if e.System? || e.ToolCard? || e.OutputContract? || e.Prelude? then RoleSystem
    else if e.Assistant? then RoleAssistant
    else RoleUser
  }

  function Raw(e: Entry): string {
    match e
    case Observation(tool, Ok(v)) => tool + " -> " + v
    case Observation(tool, Failed(m)) => tool + " failed: " + m
    case ParseRejected(s) => "parse rejected: " + s
    case CompletionRejected(reason) => "completion rejected: " + reason
    case _ => e.text
  }

  function Content(e: Entry, perChars: nat): string {
    TruncateEntry(Raw(e), perChars)
  }

  function MessageOf(e: Entry, perChars: nat): Message {
    Message(RoleOf(e), Content(e, perChars))
  }

  function Messages(es: seq<Entry>, perChars: nat): (ms: seq<Message>)
    ensures |ms| == |es|
    ensures forall i :: 0 <= i < |es| ==> ms[i] == MessageOf(es[i], perChars)
  {
    seq(|es|, i requires 0 <= i < |es| => MessageOf(es[i], perChars))
  }

  // ---- The head ----------------------------------------------------------------------------

  /** What a transcript holds: how it was started, its failures and its tail. */
  datatype Contents = Contents(system: string, card: string, contract: string, prelude: seq<Entry>,
                             question: string, failures: seq<Failure>, tail: seq<Entry>)

  function PreludeOf(es: seq<Entry>): seq<Entry> {
    seq(|es|, i requires 0 <= i < |es| => Prelude(Raw(es[i])))
  }

  function HeadOf(r: Contents): seq<Entry> {
    [System(r.system), ToolCard(r.card), OutputContract(r.contract)] + PreludeOf(r.prelude) + [User(r.question)]
  }

  function Join(parts: seq<string>): (r: string) {
    if parts == [] then ""
    else if |parts| == 1 then parts[0]
    else Join(parts[..|parts| - 1]) + "\n" + parts[|parts| - 1]
  }

  function Truncated(texts: seq<string>, perChars: nat): seq<string> {
    seq(|texts|, i requires 0 <= i < |texts| => TruncateEntry(texts[i], perChars))
  }

  function Texts(es: seq<Entry>): seq<string> {
    seq(|es|, i requires 0 <= i < |es| => Raw(es[i]))
  }

  function FixedTexts(r: Contents): seq<string> {
    [r.system, r.card, r.contract] + Texts(r.prelude)
  }

  /** The texts of the system message, in order: start, prelude, known failures. */
  function SystemTexts(r: Contents): seq<string> {
    var ledger := LedgerText(Reference(r.failures));
    FixedTexts(r) + if ledger.Some? then [ledger.value] else []
  }

  /** The two messages that are never dropped. */
  function Opening(r: Contents, perChars: nat): seq<Message> {
    [Message(RoleSystem, Join(Truncated(SystemTexts(r), perChars))),
     Message(RoleUser, TruncateEntry(r.question, perChars))]
  }

  // ---- The window --------------------------------------------------------------------------

  function Cost(ms: seq<Message>): (c: nat)
    ensures c >= |ms|
  {
    if ms == [] then 0 else EstimateTokens(ms[0].content) + Cost(ms[1..])
  }

  /** The head's estimate is a plain `u32` sum, which wraps. */
  function HeadCost(opening: seq<Message>): (c: nat)
    ensures Cost(opening) <= U32_MAX ==> c == Cost(opening)
  {
    Cost(opening) % (U32_MAX + 1)
  }

  /** A ceiling of `U32_MAX` is never exceeded by a saturating sum. */
  predicate Fits(opening: seq<Message>, kept: seq<Message>, total: nat) {
    total == U32_MAX || HeadCost(opening) + Cost(kept) <= total
  }

  function Ending<T>(s: seq<T>, m: nat): seq<T>
    requires m <= |s|
  {
    s[|s| - m..]
  }

  /** `out` is the opening and then exactly the longest end of the tail that fits. */
  ghost predicate IsWindow(opening: seq<Message>, tail: seq<Message>, out: seq<Message>, total: nat) {
    && |opening| <= |out| <= |opening| + |tail|
    && var k := |out| - |opening|;
    && out == opening + Ending(tail, k)
    && forall m :: 1 <= m <= |tail| ==> (m <= k <==> Fits(opening, Ending(tail, m), total))
  }

  ghost predicate Rendered(r: Contents, b: PromptBudget, out: seq<Message>) {
    IsWindow(Opening(r, b.PerEntryChars()), Messages(r.tail, b.PerEntryChars()), out, b.total)
  }

  lemma {:induction false} LastCosts(tail: seq<Message>, m: nat, n: nat)
    requires m <= n <= |tail|
    ensures Cost(Ending(tail, m)) + (n - m) <= Cost(Ending(tail, n))
    decreases n - m
  {
    if m < n {
      LastCosts(tail, m, n - 1);
      assert Ending(tail, n)[1..] == Ending(tail, n - 1);
    }
  }

  lemma HeadIsFixedTexts(r: Contents)
    ensures |HeadOf(r)| == |FixedTexts(r)| + 1 && HeadOf(r)[|FixedTexts(r)|] == User(r.question)
    ensures forall i :: 0 <= i < |FixedTexts(r)| ==> !HeadOf(r)[i].User? && Raw(HeadOf(r)[i]) == FixedTexts(r)[i]
  {}

  /** A cut at the first end that does not fit is the longest that fits. */
  lemma WindowCut(opening: seq<Message>, tail: seq<Message>, k: nat, total: nat)
    requires k <= |tail|
    requires k == 0 || Fits(opening, Ending(tail, k), total)
    requires k < |tail| ==> !Fits(opening, Ending(tail, k + 1), total)
    ensures IsWindow(opening, tail, opening + Ending(tail, k), total)
  {
    forall m | 1 <= m <= |tail| ensures m <= k <==> Fits(opening, Ending(tail, m), total) {
      if m <= k { LastCosts(tail, m, k); } else { LastCosts(tail, k + 1, m); }
    }
  }

  class AgentTranscript {
    var head: seq<Entry>
    var tail: seq<Entry>
    const ledger: Ledger
    ghost var contents: Contents

    ghost predicate Valid()
      reads this, ledger
    {
      && ledger.Valid()
      && head == HeadOf(contents) && tail == contents.tail && ledger.history == contents.failures
    }

    constructor (system: string, card: string, contract: string, prelude: seq<Entry>, question: string)
      ensures Valid() && fresh(ledger)
      ensures contents == Contents(system, card, contract, prelude, question, [], [])
    {
      var start := [System(system), ToolCard(card), OutputContract(contract)];
      var i := 0;
      while i < |prelude|
        invariant 0 <= i <= |prelude|
        invariant start == [System(system), ToolCard(card), OutputContract(contract)] + PreludeOf(prelude)[..i]
      {
        var e := prelude[i];
        assert PreludeOf(prelude)[..i + 1] == PreludeOf(prelude)[..i] + [Prelude(Raw(e))];
        if e.Prelude? {
          assert e == Prelude(Raw(e));
          start := start + [e];
        } else {
          start := start + [Prelude(Raw(e))];
        }
        i := i + 1;
      }
      assert PreludeOf(prelude)[..|prelude|] == PreludeOf(prelude);
      head := start + [User(question)];
      tail := [];
      ledger := new Ledger();
      contents := Contents(system, card, contract, prelude, question, [], []);
    }

    method Push(e: Entry)
      requires Valid()
      modifies this
      ensures Valid() && contents == old(contents).(tail := old(contents).tail + [e])
    {
      tail := tail + [e];
      contents := contents.(tail := tail);
    }

    method RecordError(fingerprint: string, excerpt: string)
      requires Valid()
      modifies this, ledger
      ensures Valid()
      ensures contents == old(contents).(failures := old(contents).failures + [Failure(fingerprint, excerpt)])
    {
      ledger.RecordFailure(fingerprint, excerpt);
      contents := contents.(failures := ledger.history);
    }

    method RenderHead(budget: PromptBudget) returns (out: seq<Message>)
      requires Valid()
      ensures out == Opening(contents, budget.PerEntryChars())
    {
      var per := budget.PerEntryChars();
      var parts: seq<string> := [];
      var question: Option<string> := None;
      ghost var fixed := FixedTexts(contents);
      HeadIsFixedTexts(contents);
      hide TruncateEntry, HeadOf, FixedTexts, Reference, LedgerText;
      var i := 0;
      while i < |head|
        invariant 0 <= i <= |head|
        invariant i <= |fixed| ==> question == None && parts == Truncated(fixed, per)[..i]
        invariant i == |fixed| + 1 ==>
            question == Some(TruncateEntry(contents.question, per)) && parts == Truncated(fixed, per)
      {
        assert i < |fixed| ==> Truncated(fixed, per)[i] == TruncateEntry(fixed[i], per);
        if head[i].User? {
          question := Some(TruncateEntry(head[i].text, per));
        } else {
          parts := parts + [Content(head[i], per)];
        }
        i := i + 1;
      }
      var known := ledger.Render();
      if known.Some? { parts := parts + [TruncateEntry(known.value, per)]; }
      assert parts == Truncated(SystemTexts(contents), per);
      hide Truncated, SystemTexts;
      out := [Message(RoleSystem, Join(parts))];
      if question.Some? { out := out + [Message(RoleUser, question.value)]; }
    }

    /** `render`: the head always, then the newest entries while they fit. */
    method Render(budget: PromptBudget) returns (out: seq<Message>)
      requires Valid()
      ensures Rendered(contents, budget, out)
    {
      hide Opening, HeadOf, EstimateTokens, Reference, Content;
      var per := budget.PerEntryChars();
      out := RenderHead(budget);
      ghost var opening, all := out, Messages(tail, per);
      var used := HeadCost(out);
      var kept: seq<Message> := [];
      var i := |tail|;
      while i > 0
        invariant 0 <= i <= |tail|
        invariant kept == all[i..]
        invariant i == |tail| || Fits(opening, kept, budget.total)
        invariant used == Min(HeadCost(opening) + Cost(kept), U32_MAX)
      {
        var msg := MessageOf(tail[i - 1], per);
        var t := EstimateTokens(msg.content);
        assert all[i - 1..] == [msg] + kept;
        assert Cost([msg] + kept) == t + Cost(kept);
        if SatAdd32(used, t) > budget.total {
          WindowCut(opening, all, |tail| - i, budget.total);
          out := out + kept;
          return;
        }
        used := SatAdd32(used, t);
        kept := [msg] + kept;
        i := i - 1;
      }
      WindowCut(opening, all, |tail|, budget.total);
      out := out + kept;
    }
  }

  // ---- What a window guarantees ------------------------------------------------------------

  /** The estimate of everything sent stays within the ceiling, or is the head's alone. */
  lemma WindowWithinBudget(opening: seq<Message>, tail: seq<Message>, out: seq<Message>, total: nat)
    requires IsWindow(opening, tail, out, total) && total < U32_MAX
    ensures HeadCost(opening) + Cost(out[|opening|..]) <= Max(total, HeadCost(opening))
  {
    var k := |out| - |opening|;
    assert out[|opening|..] == Ending(tail, k);
  }

  /** The window is determined, and a larger ceiling never shows less. */
  lemma WindowMonotone(opening: seq<Message>, tail: seq<Message>, out: seq<Message>, out': seq<Message>,
                       total: nat, total': nat)
    requires total <= total' <= U32_MAX
    requires IsWindow(opening, tail, out, total) && IsWindow(opening, tail, out', total')
    ensures |out| <= |out'|
    ensures total == total' ==> out == out'
  {
    var k, k' := |out| - |opening|, |out'| - |opening|;
    if k > 0 {
      assert Fits(opening, Ending(tail, k), total);
      assert Fits(opening, Ending(tail, k), total');
    }
    if total == total' && k' > 0 {
      assert Fits(opening, Ending(tail, k'), total');
    }
  }

  /** The messages after the opening are the newest entries', in order. */
  lemma {:induction false} KeptMessages(r: Contents, b: PromptBudget, out: seq<Message>, j: nat)
    requires Rendered(r, b, out) && j < |out| - 2
    ensures j < |r.tail|
    ensures out[|out| - 1 - j] == MessageOf(r.tail[|r.tail| - 1 - j], b.PerEntryChars())
  {
    var per := b.PerEntryChars();
    var k := |out| - 2;
    hide TruncateEntry, SystemTexts, Fits;
    assert |Opening(r, per)| == 2;
    assert out == Opening(r, per) + Ending(Messages(r.tail, per), k);
    assert out[|out| - 1 - j] == Messages(r.tail, per)[|r.tail| - 1 - j];
  }

  /** An entry speaks with its own role and, up to the cut, in its own words; outcomes and
      rejections say what they are. */
  lemma MessageSays(e: Entry, perChars: nat)
    ensures var m := MessageOf(e, perChars);
            && (m.role == RoleAssistant <==> e.Assistant?)
            && (m.role == RoleUser <==> e.User? || e.Observation? || e.ParseRejected? || e.CompletionRejected?)
            && m.content == TruncateEntry(match e
                                          case Observation(tool, Ok(value)) => tool + " -> " + value
                                          case Observation(tool, Failed(why)) => tool + " failed: " + why
                                          case ParseRejected(why) => "parse rejected: " + why
                                          case CompletionRejected(why) => "completion rejected: " + why
                                          case _ => e.text, perChars)
  {
  }

  /** Joining is by line breaks and keeps the order. */
  lemma {:induction false} JoinSplits(a: seq<string>, b: seq<string>)
    requires a != [] && b != []
    ensures Join(a + b) == Join(a) + "\n" + Join(b)
    decreases |b|
  {
    var n := |b| - 1;
    var ab := a + b;
    assert ab[..|ab| - 1] == a + b[..n] && ab[|ab| - 1] == b[n];
    if n > 0 {
      JoinSplits(a, b[..n]);
      assert Join(ab) == Join(a + b[..n]) + "\n" + b[n];
      assert Join(b) == Join(b[..n]) + "\n" + b[n];
    } else {
      assert a + b[..n] == a && b == [b[0]];
    }
  }

  // ---- When the newest entry always survives -----------------------------------------------

  /** With `n` prelude entries the newest tail entry is in every rendered window. */
  ghost predicate AlwaysKeepsNewest(b: PromptBudget, n: nat) {
    forall r: Contents, out: seq<Message> ::
      |r.prelude| == n && r.tail != [] && Rendered(r, b, out) ==> |out| > |Opening(r, b.PerEntryChars())|
  }

  /** The tokens of `k` full entries: `k` times `perEntry`, by addition. */
  function Shares(k: nat, perEntry: nat): nat {
    if k == 0 then 0 else Shares(k - 1, perEntry) + perEntry
  }

  lemma Distribute(a: int, b: int, c: int)
    ensures (a + b) * c == a * c + b * c
  {}

  lemma {:induction false} SharesIsProduct(k: nat, perEntry: nat)
    ensures Shares(k, perEntry) == k * perEntry
  {
    if k > 0 {
      SharesIsProduct(k - 1, perEntry);
      Distribute(k - 1, 1, perEntry);
    }
  }

  /** Four fixed texts and `n` more in the system message, the question, the newest entry. */
  function WorstCase(n: nat, perEntry: nat): nat {
    Shares(6 + n, perEntry) + 3 + (n + 3) / 4
  }

  lemma {:induction false} JoinLength(parts: seq<string>, each: nat)
    ensures (forall i :: 0 <= i < |parts| ==> |parts[i]| <= each) && parts != [] ==>
              |Join(parts)| <= |parts| * each + |parts| - 1
    ensures (forall i :: 0 <= i < |parts| ==> |parts[i]| == each) && parts != [] ==>
              |Join(parts)| == |parts| * each + |parts| - 1
  {
    if |parts| > 1 {
      JoinLength(parts[..|parts| - 1], each);
      assert |parts| * each == (|parts| - 1) * each + each;
    }
  }

  lemma CostOfTwo(a: Message, b: Message)
    ensures Cost([a, b]) == EstimateTokens(a.content) + EstimateTokens(b.content)
    ensures Cost([a]) == EstimateTokens(a.content)
  {
    assert [a, b][1..] == [b];
    assert forall m :: Cost([m]) == EstimateTokens(m.content) + Cost([]);
  }

  lemma TruncatedShort(texts: seq<string>, maxChars: nat)
    requires maxChars >= 14
    ensures |Truncated(texts, maxChars)| == |texts|
    ensures forall i :: 0 <= i < |texts| ==> |Truncated(texts, maxChars)[i]| <= maxChars
  {
    hide TruncateEntry;
  }

  lemma PartsShort(r: Contents, per: nat)
    requires 4 <= per
    ensures var parts := Truncated(SystemTexts(r), 4 * per);
            && 3 + |r.prelude| <= |parts| <= 4 + |r.prelude|
            && forall i :: 0 <= i < |parts| ==> |parts[i]| <= 4 * per
  {
    TruncatedShort(SystemTexts(r), 4 * per);
    hide LedgerText, Reference, Truncated;
  }

  lemma Products(count: nat, n: nat, per: nat)
    requires count <= 4 + n
    ensures count * (4 * per) <= 4 * ((4 + n) * per)
    ensures (6 + n) * per == (4 + n) * per + 2 * per
  {
    Distribute(count, 4 + n - count, 4 * per);
    Distribute(4 + n, 2, per);
    assert 0 <= (4 + n - count) * (4 * per);
    assert (4 + n) * (4 * per) == 4 * ((4 + n) * per);
  }

  /** The system message: at most `4 + n` texts of `4 * per` characters, and line breaks. */
  lemma JoinCost(parts: seq<string>, n: nat, per: nat)
    requires 0 < |parts| <= 4 + n && WorstCase(n, per) <= U32_MAX
    requires forall i :: 0 <= i < |parts| ==> |parts[i]| <= 4 * per
    ensures EstimateTokens(Join(parts)) + 2 * per + 2 <= WorstCase(n, per)
  {
    JoinLength(parts, 4 * per);
    hide Join, EstimateTokens;
    SharesIsProduct(6 + n, per);
    Products(|parts|, n, per);
  }

  lemma {:induction false} OpeningCost(r: Contents, per: nat)
    requires 4 <= per && WorstCase(|r.prelude|, per) <= U32_MAX
    ensures HeadCost(Opening(r, 4 * per)) + per + 1 <= WorstCase(|r.prelude|, per)
  {
    hide WorstCase, HeadCost;
    PartsShort(r, per);
    var parts := Truncated(SystemTexts(r), 4 * per);
    hide Truncated, SystemTexts, Join, Cost;
    JoinCost(parts, |r.prelude|, per);
    var question := TruncateEntry(r.question, 4 * per);
    assert |question| <= 4 * per;
    hide TruncateEntry, EstimateTokens;
    CostOfTwo(Message(RoleSystem, Join(parts)), Message(RoleUser, question));
  }

  // The worst transcript: every text fills its entry exactly.

  function Filled(n: nat): (s: string)
    ensures |s| == n
  {
    seq(n, _ => 'x')
  }

  lemma TextOfOne(e: LedgerEntry)
    requires e.count == 1
    ensures |EntriesText([e])| == 25 + |e.fingerprint| + |e.excerpt|
  {
    assert Decimal(1) == "1";
    assert [e][..0] == [];
    assert EntriesText([]) == "Known failures:";
    assert EntriesText([e]) == EntriesText([]) + EntryText(e);
    hide EntriesText, Decimal;
  }

  lemma ReferenceOfNothing()
    ensures Reference([]) == []
  {
    assert ByLastUse([]) == [] && Newest<string>([]) == [];
    hide EntryOf, ByLastUse;
  }

  lemma RecordFirst(f: Failure)
    ensures Record([], f) == [LedgerEntry(f.fingerprint, 1, TruncateChars(f.excerpt, LEDGER_EXCERPT_CHARS))]
  {
    hide TruncateChars;
  }

  lemma LedgerOfOne(f: Failure)
    ensures Reference([f]) == [LedgerEntry(f.fingerprint, 1, TruncateChars(f.excerpt, LEDGER_EXCERPT_CHARS))]
    ensures |EntriesText(Reference([f]))| == 25 + |f.fingerprint| + |TruncateChars(f.excerpt, LEDGER_EXCERPT_CHARS)|
  {
    hide Reference, Record, TruncateChars, EntriesText;
    LedgerIsLru([], f);
    ReferenceOfNothing();
    RecordFirst(f);
    assert [] + [f] == [f];
    TextOfOne(LedgerEntry(f.fingerprint, 1, TruncateChars(f.excerpt, LEDGER_EXCERPT_CHARS)));
  }

  /** A known failure whose printed ledger is exactly `n` characters long. */
  function FillingFailure(n: nat): (f: Failure)
    requires n >= 25
    ensures |EntriesText(Reference([f]))| == n
  {
    var f := Failure(Filled(n - 25), "");
    LedgerOfOne(f);
    f
  }

  function WorstContents(n: nat, per: nat): Contents
    requires per >= 7
  {
    var full := Filled(4 * per);
    Contents(full, full, full, seq(n, _ => Prelude(full)), full, [FillingFailure(4 * per)], [User(full)])
  }

  lemma FourTimes(k: nat, per: nat)
    ensures k * (4 * per) == 4 * (k * per)
  {
  }

  lemma WorstJoinCost(parts: seq<string>, n: nat, per: nat)
    requires |parts| == 4 + n && WorstCase(n, per) <= U32_MAX
    requires forall i :: 0 <= i < |parts| ==> |parts[i]| == 4 * per
    ensures EstimateTokens(Join(parts)) + 2 * per + 2 == WorstCase(n, per)
  {
    hide Join, EstimateTokens;
    var p := (4 + n) * per;
    assert |Join(parts)| == 4 * p + n + 3 by {
      JoinLength(parts, 4 * per);
      FourTimes(4 + n, per);
    }
    assert WorstCase(n, per) == p + 2 * per + 3 + (n + 3) / 4 by {
      SharesIsProduct(6 + n, per);
      Distribute(4 + n, 2, per);
    }
  }

  /** Every text of the transcript fills its entry exactly, and its tail is one such entry. */
  ghost predicate FillsEverything(r: Contents, n: nat, per: nat) {
    var parts, all := Truncated(SystemTexts(r), 4 * per), Messages(r.tail, 4 * per);
    && |parts| == 4 + n && (forall i :: 0 <= i < |parts| ==> |parts[i]| == 4 * per)
    && |r.prelude| == n && |r.question| == 4 * per
    && |all| == 1 && |all[0].content| == 4 * per
  }

  lemma FullStay(texts: seq<string>, maxChars: nat)
    requires forall i :: 0 <= i < |texts| ==> |texts[i]| == maxChars
    ensures Truncated(texts, maxChars) == texts
  {
    forall i | 0 <= i < |texts| ensures TruncateEntry(texts[i], maxChars) == texts[i] {}
    hide TruncateEntry;
  }

  lemma FixedAreFull(r: Contents, size: nat)
    requires |r.system| == size && |r.card| == size && |r.contract| == size
    requires forall i :: 0 <= i < |r.prelude| ==> r.prelude[i].Prelude? && |r.prelude[i].text| == size
    ensures |FixedTexts(r)| == 3 + |r.prelude|
    ensures forall i :: 0 <= i < |FixedTexts(r)| ==> |FixedTexts(r)[i]| == size
  {
  }

  lemma TextsWithLedger(r: Contents)
    requires |Reference(r.failures)| > 0
    ensures SystemTexts(r) == FixedTexts(r) + [EntriesText(Reference(r.failures))]
  {
    hide FixedTexts, EntriesText, Reference;
  }

  lemma FillingLedger(size: nat)
    requires size >= 25
    ensures |Reference([FillingFailure(size)])| == 1 && |EntriesText(Reference([FillingFailure(size)]))| == size
  {
    LedgerOfOne(FillingFailure(size));
    hide FillingFailure, EntriesText, Reference;
  }

  lemma WorstParts(n: nat, per: nat)
    requires 7 <= per
    ensures var r := WorstContents(n, per);
            && |r.system| == |r.card| == |r.contract| == 4 * per
            && |r.prelude| == n && r.failures == [FillingFailure(4 * per)]
            && forall i :: 0 <= i < n ==> r.prelude[i].Prelude? && |r.prelude[i].text| == 4 * per
  {
    hide Filled, FillingFailure;
  }

  lemma WorstTexts(n: nat, per: nat)
    requires 7 <= per
    ensures var texts := SystemTexts(WorstContents(n, per));
            |texts| == 4 + n && forall i :: 0 <= i < |texts| ==> |texts[i]| == 4 * per
  {
    hide *;
    WorstParts(n, per);
    var r := WorstContents(n, per);
    FixedAreFull(r, 4 * per);
    FillingLedger(4 * per);
    TextsWithLedger(r);
  }

  lemma {:induction false} WorstContentsFill(n: nat, per: nat)
    requires 7 <= per
    ensures FillsEverything(WorstContents(n, per), n, per)
  {
    WorstTexts(n, per);
    FullStay(SystemTexts(WorstContents(n, per)), 4 * per);
    hide Filled, FillingFailure, SystemTexts, Truncated;
  }

  /** Texts that all fill their entries cost exactly the worst case. */
  lemma WorstIsWorst(parts: seq<string>, question: string, n: nat, per: nat)
    requires WorstCase(n, per) <= U32_MAX && |parts| == 4 + n && |question| == 4 * per
    requires forall i :: 0 <= i < |parts| ==> |parts[i]| == 4 * per
    ensures HeadCost([Message(RoleSystem, Join(parts)), Message(RoleUser, question)]) + per + 1 == WorstCase(n, per)
  {
    hide WorstCase, HeadCost, Cost, Join;
    WorstJoinCost(parts, n, per);
    CostOfTwo(Message(RoleSystem, Join(parts)), Message(RoleUser, question));
  }

  /** A window that has room for the newest entry shows it. */
  lemma NewestFits(opening: seq<Message>, all: seq<Message>, out: seq<Message>, total: nat)
    requires all != [] && IsWindow(opening, all, out, total)
    requires HeadCost(opening) + EstimateTokens(all[|all| - 1].content) <= total
    ensures |out| > |opening|
  {
    hide HeadCost, Cost, EstimateTokens;
    var newest := all[|all| - 1];
    CostOfTwo(newest, newest);
    assert Ending(all, 1) == [newest];
    assert Fits(opening, Ending(all, 1), total);
  }

  lemma NothingFits(opening: seq<Message>, m: Message, total: nat)
    requires total < U32_MAX && HeadCost(opening) + EstimateTokens(m.content) > total
    ensures IsWindow(opening, [m], opening, total)
  {
    hide HeadCost, Cost, EstimateTokens;
    CostOfTwo(m, m);
    assert Ending([m], 1) == [m] && Ending([m], 0) == [];
    assert !Fits(opening, Ending([m], 1), total);
  }

  lemma OpeningIs(r: Contents, perChars: nat)
    ensures Opening(r, perChars)
         == [Message(RoleSystem, Join(Truncated(SystemTexts(r), perChars))),
             Message(RoleUser, TruncateEntry(r.question, perChars))]
  {
    hide SystemTexts, Truncated, Join, TruncateEntry;
  }

  /** Exactly when the newest entry is never lost: the worst case has to fit. */
  lemma {:induction false} NewestKeptExactlyWhen(b: PromptBudget, n: nat)
    requires 7 <= b.perEntry && WorstCase(n, b.perEntry) <= U32_MAX
    ensures AlwaysKeepsNewest(b, n) <==> b.total >= WorstCase(n, b.perEntry)
  {
    var per: nat := b.perEntry;
    hide Opening, WorstCase, WorstContents, HeadCost, Cost, EstimateTokens, IsWindow, TruncateEntry;
    if b.total >= WorstCase(n, per) {
      forall r: Contents, out: seq<Message>
        | |r.prelude| == n && r.tail != [] && Rendered(r, b, out)
        ensures |out| > |Opening(r, b.PerEntryChars())|
      {
        var all := Messages(r.tail, 4 * per);
        OpeningCost(r, per);
        assert |all[|all| - 1].content| <= 4 * per;
        NewestFits(Opening(r, 4 * per), all, out, b.total);
      }
    } else {
      var r := WorstContents(n, per);
      WorstContentsFill(n, per);
      var all := Messages(r.tail, 4 * per);
      var parts, question := Truncated(SystemTexts(r), 4 * per), TruncateEntry(r.question, 4 * per);
      hide SystemTexts, Truncated;
      assert Opening(r, 4 * per) == [Message(RoleSystem, Join(parts)), Message(RoleUser, question)] by { OpeningIs(r, 4 * per); }
      WorstIsWorst(parts, question, n, per);
      assert all == [all[0]];
      NothingFits(Opening(r, 4 * per), all[0], b.total);
      assert Rendered(r, b, Opening(r, b.PerEntryChars()));
    }
  }

  lemma WorstCaseBounds(n: nat, per: nat)
    ensures n == 0 ==> WorstCase(n, per) == 6 * per + 3
    ensures n >= 3 ==> WorstCase(n, per) >= 9 * per + 4
  {
    SharesIsProduct(6 + n, per);
    Distribute(9, n - 3, per);
    assert n >= 3 ==> 0 <= (n - 3) * per;
  }

  /** For the budgets derived from a model: 1539 tokens suffice without a prelude, and are
      needed; with three prelude entries or more no budget suffices. */
  lemma {:induction false} ModelBudgetsKeepNewest(contextLength: nat, maxOutput: nat, n: nat)
    requires contextLength <= U32_MAX && maxOutput <= U32_MAX
    requires WorstCase(n, FromModel(contextLength, maxOutput).perEntry) <= U32_MAX
    ensures var b := FromModel(contextLength, maxOutput);
            && (n == 0 ==> (AlwaysKeepsNewest(b, n) <==> b.total >= 1539))
            && (n >= 3 ==> !AlwaysKeepsNewest(b, n))
  {
    hide WorstCase, AlwaysKeepsNewest;
    var b := FromModel(contextLength, maxOutput);
    NewestKeptExactlyWhen(b, n);
    hide FromModel;
    WorstCaseBounds(n, b.perEntry);
  }
}
