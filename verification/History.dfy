/** Message history served in pages from the newest back, and the unread counter. */
module History {
  import opened Text
  import opened Widths
  import opened ThreadTypes

  const DEFAULT_LIMIT: int := 50

  datatype Message = Message(threadSeq: int, assistant: bool, content: string, createdAt: int)

  predicate IsAssistant(step: ThreadStep) {
    step.Complete? || step.Interrupt? || step.ReviewResponse?
  }

  predicate IsMessage(step: ThreadStep) {
    step.User? || IsAssistant(step)
  }

  function OrElse(a: Option<string>, b: Option<string>): Option<string> {
    if a.Some? then a else b
  }

  function FinalDisplayText(p: Payload): string {
    var t := OrElse(p.answer, p.text);
    if t.Some? then t.value else p.rendered
  }

  function ContentOf(step: ThreadStep): string
    requires IsMessage(step)
  {
    match step
    case User(text, _) => text
    case ReviewResponse(text, _) => text
    case Interrupt(_, prompt, _) => prompt
    case Complete(_, payload, display, _, _) =>
      var t := OrElse(display, OrElse(payload.text, payload.answer));
      if t.Some? then t.value else FinalDisplayText(payload)
  }

  /** Every message of a log, numbered from one. */
  function Messages(steps: seq<ThreadStep>): (ms: seq<Message>)
    ensures |ms| <= |steps|
    ensures forall i :: 0 <= i < |ms| ==> ms[i].threadSeq == i + 1
  {
    if steps == [] then []
    else
      var before, step := Messages(steps[..|steps| - 1]), steps[|steps| - 1];
      if IsMessage(step) then before + [Message(|before| + 1, IsAssistant(step), ContentOf(step), step.ts)]
      else before
  }

  /** How many of `n` messages numbered from one come before `before`. */
  function Below(n: nat, before: Option<int>): (k: nat)
    ensures k <= n
  {
    if before.None? || before.value > n then n
    else if before.value < 1 then 0
    else before.value - 1
  }

  /** The source counts in `i32`. For a log of at most `I32_MAX` steps every number it computes
      stays in that width, so counting with unbounded integers is exact. */
  lemma NumbersFit(steps: seq<ThreadStep>, before: Option<int>, limit: int)
    requires |steps| <= I32_MAX && 1 <= limit <= I32_MAX
    ensures var ms := Messages(steps); var total := Below(|ms|, before);
            && (forall i :: 0 <= i < |ms| ==> 1 <= ms[i].threadSeq <= I32_MAX)
            && total <= I32_MAX && total - limit <= I32_MAX && limit - total <= I32_MAX
  {
  }

  lemma {:induction false} MessagesGrow(steps: seq<ThreadStep>, more: seq<ThreadStep>)
    ensures Messages(steps) <= Messages(steps + more)
  {
    if more == [] {
      assert steps + more == steps;
    } else {
      var prefix := more[..|more| - 1];
      assert (steps + more)[..|steps + more| - 1] == steps + prefix;
      MessagesGrow(steps, prefix);
    }
  }

  /** What each message says and who says it: a completion shows the first of its display text,
      its text and its answer that it has, and else its rendered payload; a user's step is the
      only one that is not the assistant's. */
  lemma {:induction false} MessageSays(steps: seq<ThreadStep>, j: nat)
    requires j < |steps| && IsMessage(steps[j])
    ensures var k := |Messages(steps[..j])|;
            && k < |Messages(steps)|
            && var m := Messages(steps)[k];
            && m.threadSeq == k + 1 && m.createdAt == steps[j].ts && (m.assistant <==> !steps[j].User?)
            && match steps[j]
               case User(text, _) => m.content == text
               case ReviewResponse(text, _) => m.content == text
               case Interrupt(_, prompt, _) => m.content == prompt
               case Complete(_, p, display, _, _) =>
                 && (display.Some? ==> m.content == display.value)
                 && (display.None? && p.text.Some? ==> m.content == p.text.value)
                 && (display.None? && p.text.None? && p.answer.Some? ==> m.content == p.answer.value)
                 && (display.None? && p.text.None? && p.answer.None? ==> m.content == p.rendered)
  {
    var upto := steps[..j + 1];
    OneMoreStep(steps, j);
    MessagesGrow(upto, steps[j + 1..]);
    assert upto + steps[j + 1..] == steps;
  }

  function LimitOf(limitOpt: Option<int>): int {
    var limit := if limitOpt.Some? then limitOpt.value else DEFAULT_LIMIT;
    if limit < 1 then 1 else limit
  }

  /** A page is the newest `limit` messages before the cursor; the next cursor is the number of
      its first message, as long as an older one exists. */
  ghost predicate IsPage(all: seq<Message>, before: Option<int>, limit: int, page: seq<Message>, next: Option<int>) {
    var hi := Below(|all|, before);
    var lo := if hi > limit then hi - limit else 0;
    && 0 <= lo <= hi <= |all|
    && page == all[lo..hi]
    && next == if lo > 0 then Some(lo + 1) else None
  }

  method NumberedMessages(steps: seq<ThreadStep>) returns (all: seq<Message>)
    ensures all == Messages(steps)
  {
    var tseq := 0;
    all := [];
    for i := 0 to |steps|
      invariant all == Messages(steps[..i]) && tseq == |all|
    {
      assert steps[..i + 1][..i] == steps[..i];
      var step := steps[i];
      if step.User? {
        tseq := tseq + 1;
        all := all + [Message(tseq, false, step.text, step.ts)];
      } else if step.Complete? {
        tseq := tseq + 1;
        var content := OrElse(OrElse(step.display, step.payload.text), step.payload.answer);
        all := all + [Message(tseq, true, if content.Some? then content.value else FinalDisplayText(step.payload), step.ts)];
      } else if step.ReviewResponse? {
        tseq := tseq + 1;
        all := all + [Message(tseq, true, step.text, step.ts)];
      } else if step.Interrupt? {
        tseq := tseq + 1;
        all := all + [Message(tseq, true, step.prompt, step.ts)];
      }
    }
    assert steps[..|steps|] == steps;
  }

  method OlderThan(all: seq<Message>, before: Option<int>) returns (older: seq<Message>)
    requires forall i :: 0 <= i < |all| ==> all[i].threadSeq == i + 1
    ensures older == all[..Below(|all|, before)]
  {
    if before.None? { return all; }
    older := [];
    for i := 0 to |all|
      invariant older == all[..if i < Below(|all|, before) then i else Below(|all|, before)]
    {
      if all[i].threadSeq < before.value { older := older + [all[i]]; }
    }
  }

  method BuildHistory(steps: seq<ThreadStep>, before: Option<int>, limitOpt: Option<int>)
    returns (page: seq<Message>, next: Option<int>)
    ensures IsPage(Messages(steps), before, LimitOf(limitOpt), page, next)
  {
    var limit := LimitOf(limitOpt);
    var all := NumberedMessages(steps);
    var filtered := OlderThan(all, before);
    if |filtered| > limit {
      var start := |filtered| - limit;
      page := filtered[start..];
      var first := page[0].threadSeq;
      next := if first > 1 then Some(first) else None;
    } else {
      page, next := filtered, None;
    }
  }

  // ---- Following the cursor ----------------------------------------------------------------

  /** One request: the log it met, its cursor and limit, and the answer. */
  datatype Call = Call(steps: seq<ThreadStep>, before: Option<int>, limit: Option<int>,
                       page: seq<Message>, next: Option<int>)

  ghost predicate Answered(c: Call) {
    IsPage(Messages(c.steps), c.before, LimitOf(c.limit), c.page, c.next)
  }

  /** The next request takes the cursor it was given; the log may have grown. */
  predicate Follows(c: Call, d: Call) {
    c.next.Some? && d.before == c.next && c.steps <= d.steps
  }

  /** A client walks back from some cursor. Each call may ask for its own limit. */
  ghost predicate Walk(calls: seq<Call>) {
    && calls != []
    && (forall i :: 0 <= i < |calls| ==> Answered(calls[i]))
    && (forall i :: 0 < i < |calls| ==> Follows(calls[i - 1], calls[i]))
  }

  function Read(calls: seq<Call>): seq<Message> {
    if calls == [] then [] else Read(calls[1..]) + calls[0].page
  }

  lemma WalkTail(calls: seq<Call>)
    requires Walk(calls) && |calls| > 1
    ensures Walk(calls[1..])
  {
    hide Answered, Follows;
    forall i | 0 < i < |calls[1..]| ensures Follows(calls[1..][i - 1], calls[1..][i]) {
      assert calls[1..][i] == calls[i + 1] && calls[1..][i - 1] == calls[i];
      assert Follows(calls[i + 1 - 1], calls[i + 1]);
    }
  }

  lemma StepsOnlyGrow(c: Call, d: Call)
    requires c.steps <= d.steps
    ensures Messages(c.steps) <= Messages(d.steps)
  {
    assert d.steps == c.steps + d.steps[|c.steps|..];
    MessagesGrow(c.steps, d.steps[|c.steps|..]);
  }

  /** Two calls in a row: the second starts where the first one's page starts. */
  lemma NextCall(c: Call, d: Call)
    requires Answered(c) && Answered(d) && Follows(c, d)
    ensures var all, all' := Messages(c.steps), Messages(d.steps);
            var hi, lo := Below(|all|, c.before), Below(|all'|, d.before);
            && lo == hi - LimitOf(c.limit) && c.page == all[lo..hi] && all'[..lo] == all[..lo]
  {
    StepsOnlyGrow(c, d);
  }

  lemma LastCall(c: Call)
    requires Answered(c) && c.next.None?
    ensures var all := Messages(c.steps); c.page == all[..Below(|all|, c.before)]
  {
    hide Messages, Below;
  }

  lemma Glue<T>(s: seq<T>, lo: nat, hi: nat)
    requires lo <= hi <= |s|
    ensures s[..lo] + s[lo..hi] == s[..hi]
  {
  }

  /** A finished walk reads exactly the messages that stood before its first cursor when it
      began: each once, in order, whatever was appended meanwhile. */
  lemma {:induction false} WalkReadsEverything(calls: seq<Call>)
    requires Walk(calls) && calls[|calls| - 1].next.None?
    ensures var all := Messages(calls[0].steps); Read(calls) == all[..Below(|all|, calls[0].before)]
    decreases |calls|
  {
    assert Answered(calls[0]);
    hide Answered, Follows, Messages, Below, LimitOf;
    if |calls| == 1 {
      LastCall(calls[0]);
      assert calls[1..] == [];
    } else {
      WalkTail(calls);
      WalkReadsEverything(calls[1..]);
      assert Follows(calls[1 - 1], calls[1]) && Answered(calls[1]);
      NextCall(calls[0], calls[1]);
      var all := Messages(calls[0].steps);
      var hi := Below(|all|, calls[0].before);
      Glue(all, hi - LimitOf(calls[0].limit), hi);
      assert Read(calls) == Read(calls[1..]) + calls[0].page;
      hide Walk, Read;
    }
  }

  /** From the newest: everything present at the first call, and pages within their limits. */
  lemma {:induction false} PagingIsComplete(calls: seq<Call>)
    requires Walk(calls) && calls[0].before.None? && calls[|calls| - 1].next.None?
    ensures Read(calls) == Messages(calls[0].steps)
    ensures forall i :: 0 <= i < |calls| ==> |calls[i].page| <= LimitOf(calls[i].limit)
  {
    WalkReadsEverything(calls);
    forall i | 0 <= i < |calls| ensures |calls[i].page| <= LimitOf(calls[i].limit) {
      assert Answered(calls[i]);
    }
  }

  /** A walk never takes more calls than there are messages, and one more. */
  lemma {:induction false} WalkEnds(calls: seq<Call>)
    requires Walk(calls)
    ensures |calls| - 1 <= Below(|Messages(calls[0].steps)|, calls[0].before)
    decreases |calls|
  {
    if |calls| > 1 {
      WalkTail(calls);
      WalkEnds(calls[1..]);
      assert Answered(calls[0]) && Follows(calls[1 - 1], calls[1]);
      NextCall(calls[0], calls[1]);
    }
  }

  lemma Times(n: int, limit: int)
    ensures n * limit == (n - 1) * limit + limit
  {
  }

  /** With one limit throughout, a finished walk took exactly as many calls as pages are needed,
      and an unfinished one has read only full pages. */
  lemma {:induction false} WalkLength(calls: seq<Call>, limit: int)
    requires Walk(calls) && limit >= 1
    requires forall i :: 0 <= i < |calls| ==> LimitOf(calls[i].limit) == limit
    ensures var n := Below(|Messages(calls[0].steps)|, calls[0].before);
            && (|calls| - 1) * limit <= n
            && (calls[|calls| - 1].next.None? ==> n <= |calls| * limit && (|calls| > 1 ==> (|calls| - 1) * limit < n))
            && (calls[|calls| - 1].next.Some? ==> |calls| * limit < n)
    decreases |calls|
  {
    assert Answered(calls[0]);
    if |calls| > 1 {
      WalkTail(calls);
      WalkLength(calls[1..], limit);
      assert Follows(calls[1 - 1], calls[1]);
      NextCall(calls[0], calls[1]);
      var n, n' := Below(|Messages(calls[0].steps)|, calls[0].before), Below(|Messages(calls[1].steps)|, calls[1].before);
      hide Walk, Answered, Follows, Messages, Below;
      assert n == n' + limit;
      Times(|calls|, limit);
      Times(|calls| - 1, limit);
    }
  }

  // ---- Unread ------------------------------------------------------------------------------

  /** The numbers of the assistant's messages after `seen`. */
  ghost function UnreadSeqs(ms: seq<Message>, seen: int): set<int> {
    set i | 0 <= i < |ms| && ms[i].assistant && ms[i].threadSeq > seen :: ms[i].threadSeq
  }

  lemma UnreadSnoc(ms: seq<Message>, m: Message, seen: int)
    requires forall i :: 0 <= i < |ms| ==> ms[i].threadSeq == i + 1
    requires m.threadSeq == |ms| + 1
    ensures |UnreadSeqs(ms + [m], seen)| == |UnreadSeqs(ms, seen)| + if m.assistant && m.threadSeq > seen then 1 else 0
  {
    var now := if m.assistant && m.threadSeq > seen then {m.threadSeq} else {};
    forall s | s in UnreadSeqs(ms, seen) + now ensures s in UnreadSeqs(ms + [m], seen) {
      if s in UnreadSeqs(ms, seen) {
        var i :| 0 <= i < |ms| && ms[i].assistant && ms[i].threadSeq > seen && ms[i].threadSeq == s;
        assert (ms + [m])[i] == ms[i];
      } else {
        assert (ms + [m])[|ms|] == m;
      }
    }
    assert UnreadSeqs(ms + [m], seen) == UnreadSeqs(ms, seen) + now;
    assert m.threadSeq !in UnreadSeqs(ms, seen);
  }

  /** `last` is the number of the assistant's last message, or zero. */
  ghost predicate IsLastAssistant(ms: seq<Message>, last: int) {
    && (forall i :: 0 <= i < |ms| && ms[i].assistant ==> ms[i].threadSeq <= last)
    && (last == 0 || (1 <= last <= |ms| && ms[last - 1].assistant))
  }

  lemma LastSnoc(ms: seq<Message>, m: Message, last: int)
    requires IsLastAssistant(ms, last) && m.threadSeq == |ms| + 1
    ensures IsLastAssistant(ms + [m], if m.assistant then m.threadSeq else last)
  {
    assert forall i :: 0 <= i < |ms| ==> (ms + [m])[i] == ms[i];
    if !m.assistant && last > 0 { assert (ms + [m])[last - 1] == ms[last - 1]; }
  }

  lemma OneMoreStep(steps: seq<ThreadStep>, i: nat)
    requires i < |steps|
    ensures var step, ms := steps[i], Messages(steps[..i]);
            Messages(steps[..i + 1]) ==
            if IsMessage(step) then ms + [Message(|ms| + 1, IsAssistant(step), ContentOf(step), step.ts)] else ms
  {
    assert steps[..i + 1][..i] == steps[..i];
  }

  lemma NoneUnread(seen: int)
    ensures Messages([]) == [] && UnreadSeqs([], seen) == {} && IsLastAssistant([], 0)
  {
  }

  method ComputeUnread(steps: seq<ThreadStep>, seen: int) returns (last: int, unread: int)
    ensures IsLastAssistant(Messages(steps), last)
    ensures unread == |UnreadSeqs(Messages(steps), seen)|
  {
    var tseq := 0;
    last, unread := 0, 0;
    NoneUnread(seen);
    hide Messages, ContentOf, UnreadSeqs, IsLastAssistant;
    assert steps[..0] == [];
    for i := 0 to |steps|
      invariant tseq == |Messages(steps[..i])|
      invariant IsLastAssistant(Messages(steps[..i]), last)
      invariant unread == |UnreadSeqs(Messages(steps[..i]), seen)|
    {
      var step := steps[i];
      ghost var ms := Messages(steps[..i]);
      OneMoreStep(steps, i);
      if IsMessage(step) {
        var m := Message(|ms| + 1, IsAssistant(step), ContentOf(step), step.ts);
        UnreadSnoc(ms, m, seen);
        LastSnoc(ms, m, last);
      }
      if step.User? {
        tseq := tseq + 1;
      } else if step.Complete? || step.Interrupt? || step.ReviewResponse? {
        tseq := tseq + 1;
        if tseq > seen { unread := unread + 1; }
        last := tseq;
      }
    }
    assert steps[..|steps|] == steps;
  }

  /** Nothing is unread exactly when the mark has reached the assistant's last message. */
  lemma NothingUnreadExactlyWhen(ms: seq<Message>, seen: int, last: int)
    requires forall i :: 0 <= i < |ms| ==> ms[i].threadSeq == i + 1
    requires IsLastAssistant(ms, last) && seen >= 0
    ensures |UnreadSeqs(ms, seen)| == 0 <==> seen >= last
  {
    if seen < last {
      assert ms[last - 1].threadSeq in UnreadSeqs(ms, seen);
    } else {
      assert UnreadSeqs(ms, seen) == {};
    }
  }
}
