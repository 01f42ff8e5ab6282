/** Cutting top-level JSON objects and arrays out of prose. */
module JsonExtract {
  import opened Text

  predicate IsOpener(c: char) {
    c == '{' || c == '['
  }

  predicate IsStructural(c: char) {
    c in "{}[]\""
  }

  // ---- The scanner -------------------------------------------------------------------------

  datatype Scanner = Scanner(stack: seq<char>, inStr: bool, esc: bool)

  const START := Scanner([], false, false)

  /** One character: the scanner after it, and whether it ends the value. A closer pops
      whatever is on top; only one that matches and empties the stack ends the value. An empty
      stack takes the next character whatever it is. */
  function ScanStep(m: Scanner, c: char): (Scanner, bool) {
    if m.stack == [] then (m.(stack := [c]), false)
    else if m.inStr then
      if m.esc then (m.(esc := false), false)
      else if c == '\\' then (m.(esc := true), false)
      else (m.(inStr := c != '"'), false)
    else if c == '"' then (m.(inStr := true), false)
    else if IsOpener(c) then (m.(stack := m.stack + [c]), false)
    else if c == '}' || c == ']' then
      var top := m.stack[|m.stack| - 1];
      var m' := m.(stack := m.stack[..|m.stack| - 1]);
      (m', top == (if c == '}' then '{' else '[') && m'.stack == [])
    else (m, false)
  }

  function Plus(n: nat, r: Option<nat>): Option<nat> {
    if r.None? then None else Some(n + r.value)
  }

  /** How many characters of `t` the value takes, if it ends. */
  function ScanLength(m: Scanner, t: string): (r: Option<nat>)
    ensures r.Some? ==> 1 <= r.value <= |t|
    decreases |t|
  {
    if t == [] then None
    else
      var (m', done) := ScanStep(m, t[0]);
      if done then Some(1) else Plus(1, ScanLength(m', t[1..]))
  }

  /** Where the next opener is. */
  function FindOpener(t: string): (r: Option<nat>)
    ensures r.Some? ==> r.value < |t| && IsOpener(t[r.value]) && forall i :: 0 <= i < r.value ==> !IsOpener(t[i])
    ensures r.None? ==> forall i :: 0 <= i < |t| ==> !IsOpener(t[i])
    decreases |t|
  {
    if t == [] then None else if IsOpener(t[0]) then Some(0) else Plus(1, FindOpener(t[1..]))
  }

  /** The values cut out of `t`, at most `max`. */
  function Extract(t: string, max: nat): seq<string>
    decreases |t|
  {
    if max == 0 || FindOpener(t).None? then []
    else
      var st := FindOpener(t).value;
      match ScanLength(START, t[st..])
      case None => []
      case Some(n) => [t[st..st + n]] + Extract(t[st + n..], max - 1)
  }

  lemma ScanCons(m: Scanner, c: char, t: string)
    ensures ScanLength(m, [c] + t) == var (m', done) := ScanStep(m, c);
                                      if done then Some(1) else Plus(1, ScanLength(m', t))
  {
    assert ([c] + t)[1..] == t;
  }

  lemma FindOpenerAt(s: string, i: nat)
    requires i < |s|
    ensures FindOpener(s[i..]) == if IsOpener(s[i]) then Some(0) else Plus(1, FindOpener(s[i + 1..]))
  {
    assert s[i..][1..] == s[i + 1..];
  }

  lemma NoOpenerInNothing(t: string)
    requires t == []
    ensures FindOpener(t).None?
  {
  }

  /** The search for the next opener. */
  method FindStart(s: string, i: nat) returns (start: Option<nat>)
    requires i <= |s|
    ensures start == Plus(i, FindOpener(s[i..]))
  {
    hide FindOpener;
    for off := i to |s|
      invariant FindOpener(s[i..]) == Plus(off - i, FindOpener(s[off..]))
    {
      FindOpenerAt(s, off);
      if IsOpener(s[off]) { return Some(off); }
    }
    NoOpenerInNothing(s[|s|..]);
    return None;
  }

  lemma ScanNothing(m: Scanner, t: string)
    requires t == []
    ensures ScanLength(m, t) == None
  {
  }

  /** The scan from an opener to the character that ends its value. */
  method FindEnd(s: string, st: nat) returns (end: Option<nat>)
    requires st <= |s|
    ensures match ScanLength(START, s[st..]) case None => end.None? case Some(n) => end == Some(st + n - 1)
  {
    hide ScanLength;
    var stack, inStr, esc := [], false, false;
    for abs := st to |s|
      invariant ScanLength(START, s[st..]) == Plus(abs - st, ScanLength(Scanner(stack, inStr, esc), s[abs..]))
    {
      var ch := s[abs];
      ScanCons(Scanner(stack, inStr, esc), ch, s[abs + 1..]);
      assert s[abs..] == [ch] + s[abs + 1..];
      if stack == [] {
        stack := [ch];
      } else if inStr {
        if esc { esc := false; }
        else if ch == '\\' { esc := true; }
        else if ch == '"' { inStr := false; }
      } else if ch == '"' {
        inStr := true;
      } else if IsOpener(ch) {
        stack := stack + [ch];
      } else if ch == '}' || ch == ']' {
        var top := stack[|stack| - 1];
        stack := stack[..|stack| - 1];
        if top == (if ch == '}' then '{' else '[') && stack == [] { return Some(abs); }
      }
    }
    ScanNothing(Scanner(stack, inStr, esc), s[|s|..]);
    return None;
  }

  lemma Slices(s: string, i: nat, off: nat, n: nat)
    requires i + off + n <= |s|
    ensures s[i..][off..] == s[i + off..]
    ensures s[i..][off..off + n] == s[i + off..i + off + n]
    ensures s[i..][off + n..] == s[i + off + n..]
  {
  }

  lemma ExtractNothing(t: string, max: nat)
    requires max == 0 || FindOpener(t).None? || ScanLength(START, t[FindOpener(t).value..]).None?
    ensures Extract(t, max) == []
  {
    hide ScanLength, FindOpener;
  }

  lemma ExtractOne(t: string, max: nat)
    requires max > 0 && FindOpener(t).Some? && ScanLength(START, t[FindOpener(t).value..]).Some?
    ensures var st := FindOpener(t).value; var n := ScanLength(START, t[st..]).value;
            Extract(t, max) == [t[st..st + n]] + Extract(t[st + n..], max - 1)
  {
    hide ScanLength, FindOpener;
  }

  /** One cut, by positions in the whole text. */
  lemma ExtractAt(s: string, i: nat, max: nat)
    requires i <= |s|
    ensures max == 0 || FindOpener(s[i..]).None? ==> Extract(s[i..], max) == []
    ensures max > 0 && FindOpener(s[i..]).Some? ==>
              var st := i + FindOpener(s[i..]).value;
              match ScanLength(START, s[st..])
              case None => Extract(s[i..], max) == []
              case Some(n) => st + n <= |s| && Extract(s[i..], max) == [s[st..st + n]] + Extract(s[st + n..], max - 1)
  {
    hide ScanLength, FindOpener, Extract;
    if max == 0 || FindOpener(s[i..]).None? {
      ExtractNothing(s[i..], max);
    } else {
      var off := FindOpener(s[i..]).value;
      Slices(s, i, off, 0);
      match ScanLength(START, s[i + off..])
      case None => ExtractNothing(s[i..], max);
      case Some(n) =>
        Slices(s, i, off, n);
        ExtractOne(s[i..], max);
    }
  }

  lemma AppendOne<T>(a: seq<T>, x: T, b: seq<T>)
    ensures a + ([x] + b) == (a + [x]) + b
  {
  }

  /** `extract_all_json_values`. */
  method ExtractAllJsonValues(s: string, max: nat) returns (out: seq<string>)
    ensures out == Extract(s, max)
  {
    hide ScanLength, FindOpener, Extract;
    out := [];
    ExtractAt(s, 0, max);
    assert s[0..] == s;
    if max == 0 { return; }
    var i := 0;
    while i < |s| && |out| < max
      invariant 0 <= i <= |s| && |out| <= max
      invariant out + Extract(s[i..], max - |out|) == Extract(s, max)
    {
      ExtractAt(s, i, max - |out|);
      var start := FindStart(s, i);
      if start.None? { return; }
      var end := FindEnd(s, start.value);
      if end.None? { return; }
      var value := s[start.value..end.value + 1];
      i := end.value + 1;
      AppendOne(out, value, Extract(s[i..], max - |out| - 1));
      out := out + [value];
    }
    ExtractAt(s, i, max - |out|);
    if i == |s| { NoOpenerInNothing(s[i..]); }
  }

  // ---- On every text -----------------------------------------------------------------------

  /** The same cuts, as positions in the text. */
  function Spans(s: string, i: nat, max: nat): seq<(nat, nat)>
    requires i <= |s|
    decreases |s| - i
  {
    if max == 0 || FindOpener(s[i..]).None? then []
    else
      var st := i + FindOpener(s[i..]).value;
      match ScanLength(START, s[st..])
      case None => []
      case Some(n) => [(st, st + n)] + Spans(s, st + n, max - 1)
  }

  /** Slices of `s` from `i` on that do not overlap, in order, each beginning with an opener. */
  ghost predicate AreCuts(s: string, i: nat, cuts: seq<(nat, nat)>, values: seq<string>) {
    && |values| == |cuts|
    && (forall k :: 0 <= k < |cuts| ==>
          && i <= cuts[k].0 < cuts[k].1 <= |s| && IsOpener(s[cuts[k].0])
          && values[k] == s[cuts[k].0..cuts[k].1])
    && (forall j, k :: 0 <= j < k < |cuts| ==> cuts[j].1 <= cuts[k].0)
  }

  lemma OneMoreCut(s: string, i: nat, st: nat, end: nat, cuts: seq<(nat, nat)>, values: seq<string>)
    requires i <= st < end <= |s| && IsOpener(s[st]) && AreCuts(s, end, cuts, values)
    ensures AreCuts(s, i, [(st, end)] + cuts, [s[st..end]] + values)
  {
  }

  lemma NoCuts(s: string, i: nat)
    ensures AreCuts(s, i, [], [])
  {
  }

  /** On every text the values are such slices, and at most `max`. */
  lemma {:induction false} CutsAreDisjoint(s: string, i: nat, max: nat)
    requires i <= |s|
    ensures |Spans(s, i, max)| <= max
    ensures AreCuts(s, i, Spans(s, i, max), Extract(s[i..], max))
    decreases |s| - i
  {
    hide ScanLength, FindOpener, Extract, AreCuts;
    ExtractAt(s, i, max);
    if max == 0 || FindOpener(s[i..]).None? || ScanLength(START, s[i + FindOpener(s[i..]).value..]).None? {
      assert AreCuts(s, i, [], []) by { NoCuts(s, i); }
    } else {
      var st := i + FindOpener(s[i..]).value;
      var n := ScanLength(START, s[st..]).value;
      CutsAreDisjoint(s, st + n, max - 1);
      OneMoreCut(s, i, st, st + n, Spans(s, st + n, max - 1), Extract(s[st + n..], max - 1));
    }
  }

  // ---- On printed JSON ---------------------------------------------------------------------

  /** A JSON text as a tree that keeps its layout. `Atom` is a number, `true`, `false` or `null`;
      a string is the text between its quotes, escapes included. `lead` is what stands before an
      element (after the first one, the comma and any white space around it), `colon` what stands
      between a key and its value, `trail` what stands before the closer. The layout is free at
      every position, so compact, indented and irregular texts are all prints of such trees. */
  datatype Json =
    | Atom(text: string)
    | Str(body: string)
    | Arr(items: seq<Item>, trail: string)
    | Obj(members: seq<Member>, trail: string)
  datatype Item = Item(lead: string, value: Json)
  datatype Member = Member(lead: string, key: string, colon: string, value: Json)

  predicate Filler(s: string) {
    forall i :: 0 <= i < |s| ==> !IsStructural(s[i])
  }

  /** The inside of a string literal: escapes are whole, no bare quote. */
  predicate Body(b: string)
    decreases |b|
  {
    if b == [] then true
    else if b[0] == '\\' then |b| > 1 && Body(b[2..])
    else b[0] != '"' && Body(b[1..])
  }

  predicate WellFormed(v: Json) {
    match v
    case Atom(text) => Filler(text)
    case Str(body) => Body(body)
    case Arr(items, trail) =>
      Filler(trail) && forall i :: 0 <= i < |items| ==> Filler(items[i].lead) && WellFormed(items[i].value)
    case Obj(members, trail) =>
      Filler(trail) && forall i :: 0 <= i < |members| ==>
        && Filler(members[i].lead) && Body(members[i].key) && Filler(members[i].colon)
        && WellFormed(members[i].value)
  }

  function Quoted(body: string): string {
    "\"" + body + "\""
  }

  function Print(v: Json): string {
    match v
    case Atom(text) => text
    case Str(body) => Quoted(body)
    case Arr(items, trail) => "[" + (PrintItems(items) + trail) + "]"
    case Obj(members, trail) => "{" + (PrintMembers(members) + trail) + "}"
  }

  function PrintItems(items: seq<Item>): string {
    if items == [] then "" else items[0].lead + Print(items[0].value) + PrintItems(items[1..])
  }

  function PrintMembers(members: seq<Member>): string {
    if members == [] then ""
    else members[0].lead + Quoted(members[0].key) + members[0].colon + Print(members[0].value)
         + PrintMembers(members[1..])
  }

  /** Over `t`, with `post` after it, the scanner goes from `m` to `m'` without ending. */
  ghost predicate Moves(m: Scanner, t: string, m': Scanner, post: string) {
    ScanLength(m, t + post) == Plus(|t|, ScanLength(m', post))
  }

  /** The scanner crosses `t` without ending and comes back to where it was. */
  ghost predicate Crosses(m: Scanner, t: string) {
    forall post :: Moves(m, t, m, post)
  }

  lemma CrossConcat(m: Scanner, a: string, b: string)
    requires Crosses(m, a) && Crosses(m, b)
    ensures Crosses(m, a + b)
  {
    hide ScanLength;
    forall post ensures Moves(m, a + b, m, post) {
      assert (a + b) + post == a + (b + post);
      assert Moves(m, a, m, b + post) && Moves(m, b, m, post);
    }
  }

  lemma CrossNothing(m: Scanner)
    ensures Crosses(m, [])
  {
    hide ScanLength;
    forall post ensures Moves(m, [], m, post) { assert [] + post == post; }
  }

  /** A character that changes nothing, then a crossing, is a crossing. */
  lemma CrossCons(m: Scanner, m': Scanner, c: char, t: string)
    requires ScanStep(m, c) == (m', false)
    requires forall post :: Moves(m', t, m, post)
    ensures Crosses(m, [c] + t)
  {
    hide ScanLength, ScanStep;
    forall post ensures Moves(m, [c] + t, m, post) {
      assert ([c] + t) + post == [c] + (t + post);
      assert Moves(m', t, m, post);
      ScanCons(m, c, t + post);
    }
  }

  lemma {:induction false} CrossFiller(m: Scanner, t: string)
    requires m.stack != [] && !m.inStr && Filler(t)
    ensures Crosses(m, t)
    decreases |t|
  {
    hide ScanLength;
    if t == [] {
      CrossNothing(m);
    } else {
      CrossFiller(m, t[1..]);
      assert !IsStructural(t[0]);
      CrossCons(m, m, t[0], t[1..]);
      assert t == [t[0]] + t[1..];
    }
  }

  lemma {:induction false} CrossBody(m: Scanner, b: string)
    requires m.stack != [] && m.inStr && !m.esc && Body(b)
    ensures Crosses(m, b)
    decreases |b|
  {
    hide ScanLength;
    if b == [] {
      CrossNothing(m);
    } else if b[0] == '\\' {
      CrossBody(m, b[2..]);
      var m' := m.(esc := true);
      forall post ensures Moves(m', b[1..], m, post) {
        assert b[1..] + post == [b[1]] + (b[2..] + post);
        assert Moves(m, b[2..], m, post);
        ScanCons(m', b[1], b[2..] + post);
      }
      CrossCons(m, m', b[0], b[1..]);
      assert b == [b[0]] + b[1..];
    } else {
      CrossBody(m, b[1..]);
      CrossCons(m, m, b[0], b[1..]);
      assert b == [b[0]] + b[1..];
    }
  }

  lemma CrossQuoted(m: Scanner, b: string)
    requires m.stack != [] && !m.inStr && !m.esc && Body(b)
    ensures Crosses(m, Quoted(b))
  {
    hide ScanLength;
    var inside := m.(inStr := true);
    CrossBody(inside, b);
    forall post ensures Moves(inside, b + "\"", m, post) {
      assert Moves(inside, b, inside, ['"'] + post);
      assert (b + "\"") + post == b + (['"'] + post);
      ScanCons(inside, '"', post);
    }
    CrossCons(m, inside, '"', b + "\"");
    assert Quoted(b) == ['"'] + (b + "\"");
  }

  lemma CrossGroup(m: Scanner, open: char, close: char, inside: string)
    requires m.stack != [] && !m.inStr && !m.esc
    requires (open, close) == ('[', ']') || (open, close) == ('{', '}')
    requires Crosses(m.(stack := m.stack + [open]), inside)
    ensures Crosses(m, [open] + inside + [close])
  {
    hide ScanLength;
    var inner := m.(stack := m.stack + [open]);
    assert inner.stack[..|inner.stack| - 1] == m.stack;
    forall post ensures Moves(inner, inside + [close], m, post) {
      assert Moves(inner, inside, inner, [close] + post);
      assert (inside + [close]) + post == inside + ([close] + post);
      ScanCons(inner, close, post);
    }
    CrossCons(m, inner, open, inside + [close]);
    assert [open] + inside + [close] == [open] + (inside + [close]);
  }

  /** Inside a value every well-formed value is crossed, brackets within strings included. */
  lemma {:induction false} CrossValue(m: Scanner, v: Json)
    requires m.stack != [] && !m.inStr && !m.esc && WellFormed(v)
    ensures Crosses(m, Print(v))
    decreases v, 1
  {
    match v
    case Atom(text) => CrossFiller(m, text);
    case Str(body) => CrossQuoted(m, body);
    case Arr(items, trail) =>
      CrossInside(m.(stack := m.stack + ['[']), v);
      CrossGroup(m, '[', ']', PrintItems(items) + trail);
    case Obj(members, trail) =>
      CrossInside(m.(stack := m.stack + ['{']), v);
      CrossGroup(m, '{', '}', PrintMembers(members) + trail);
  }

  function InsideOf(v: Json): string
    requires v.Arr? || v.Obj?
  {
    (if v.Arr? then PrintItems(v.items) else PrintMembers(v.members)) + v.trail
  }

  /** What stands between the brackets is crossed. */
  lemma {:induction false} CrossInside(m: Scanner, v: Json)
    requires m.stack != [] && !m.inStr && !m.esc && WellFormed(v) && (v.Arr? || v.Obj?)
    ensures Crosses(m, InsideOf(v))
    decreases v, 0
  {
    hide Crosses;
    CrossFiller(m, v.trail);
    if v.Arr? {
      CrossItems(m, v, v.items);
      CrossConcat(m, PrintItems(v.items), v.trail);
    } else {
      CrossMembers(m, v, v.members);
      CrossConcat(m, PrintMembers(v.members), v.trail);
    }
  }

  lemma {:induction false} CrossItems(m: Scanner, v: Json, items: seq<Item>)
    requires m.stack != [] && !m.inStr && !m.esc
    requires forall i :: 0 <= i < |items| ==> items[i].value < v && Filler(items[i].lead) && WellFormed(items[i].value)
    ensures Crosses(m, PrintItems(items))
    decreases v, 0, |items|
  {
    hide Crosses;
    if items == [] {
      CrossNothing(m);
    } else {
      var lead, value := items[0].lead, Print(items[0].value);
      CrossFiller(m, lead);
      CrossValue(m, items[0].value);
      CrossItems(m, v, items[1..]);
      CrossConcat(m, lead, value);
      CrossConcat(m, lead + value, PrintItems(items[1..]));
    }
  }

  lemma {:induction false} CrossMembers(m: Scanner, v: Json, members: seq<Member>)
    requires m.stack != [] && !m.inStr && !m.esc
    requires forall i :: 0 <= i < |members| ==>
               && members[i].value < v && Filler(members[i].lead) && Body(members[i].key)
               && Filler(members[i].colon) && WellFormed(members[i].value)
    ensures Crosses(m, PrintMembers(members))
    decreases v, 0, |members|
  {
    hide Crosses;
    if members == [] {
      CrossNothing(m);
    } else {
      var lead, key, colon, value :=
        members[0].lead, Quoted(members[0].key), members[0].colon, Print(members[0].value);
      CrossFiller(m, lead);
      CrossQuoted(m, members[0].key);
      CrossFiller(m, colon);
      CrossValue(m, members[0].value);
      CrossMembers(m, v, members[1..]);
      CrossConcat(m, lead, key);
      CrossConcat(m, lead + key, colon);
      CrossConcat(m, lead + key + colon, value);
      CrossConcat(m, lead + key + colon + value, PrintMembers(members[1..]));
    }
  }

  /** A printed object or array is cut exactly at its end, whatever follows. */
  lemma ValueIsCutExactly(v: Json, post: string)
    requires (v.Arr? || v.Obj?) && WellFormed(v)
    ensures var p := Print(v); p != [] && IsOpener(p[0]) && ScanLength(START, p + post) == Some(|p|)
  {
    hide ScanLength;
    var open, close := if v.Arr? then '[' else '{', if v.Arr? then ']' else '}';
    var inside := InsideOf(v);
    var m := Scanner([open], false, false);
    CrossInside(m, v);
    var p := Print(v);
    assert p == [open] + inside + [close];
    assert p + post == [open] + (inside + ([close] + post));
    ScanCons(START, open, inside + ([close] + post));
    assert Moves(m, inside, m, [close] + post);
    ScanCons(m, close, post);
  }

  // ---- Prose with values in it -------------------------------------------------------------

  datatype Passage = Passage(prose: string, value: Json)

  predicate NoOpener(s: string) {
    forall i :: 0 <= i < |s| ==> !IsOpener(s[i])
  }

  predicate GoodPassage(p: Passage) {
    NoOpener(p.prose) && (p.value.Arr? || p.value.Obj?) && WellFormed(p.value)
  }

  function TextOf(ps: seq<Passage>, tail: string): string {
    if ps == [] then tail
    else ps[0].prose + Print(ps[0].value) + TextOf(ps[1..], tail)
  }

  function ValuesOf(ps: seq<Passage>): seq<string> {
    if ps == [] then [] else [Print(ps[0].value)] + ValuesOf(ps[1..])
  }

  lemma {:induction false} OpenerAfter(prose: string, rest: string)
    requires NoOpener(prose) && rest != [] && IsOpener(rest[0])
    ensures FindOpener(prose + rest) == Some(|prose|)
    decreases |prose|
  {
    if prose == [] {
      assert prose + rest == rest;
    } else {
      assert (prose + rest)[0] == prose[0] && (prose + rest)[1..] == prose[1..] + rest;
      OpenerAfter(prose[1..], rest);
    }
  }

  lemma {:induction false} ValuesLength(ps: seq<Passage>)
    ensures |ValuesOf(ps)| == |ps|
  {
    if ps != [] { ValuesLength(ps[1..]); }
  }

  lemma FirstOf<T>(x: T, xs: seq<T>, n: nat)
    requires n <= |xs|
    ensures ([x] + xs)[..n + 1] == [x] + xs[..n]
  {
  }

  /** A value that stands first after prose is cut, and what follows it is left. */
  lemma CutFirst(prose: string, v: string, rest: string, max: nat)
    requires max > 0 && FindOpener(prose + (v + rest)) == Some(|prose|)
    requires ScanLength(START, v + rest) == Some(|v|)
    ensures Extract(prose + (v + rest), max) == [v] + Extract(rest, max - 1)
  {
    hide ScanLength, FindOpener, Extract;
    var t := prose + (v + rest);
    assert t[|prose|..] == v + rest;
    assert t[|prose|..|prose| + |v|] == v && t[|prose| + |v|..] == rest;
    ExtractOne(t, max);
  }

  lemma NothingInTail(tail: string, max: nat)
    requires NoOpener(tail)
    ensures Extract(tail, max) == []
  {
    assert FindOpener(tail).None?;
  }

  /** Exact extraction: from prose without openers, alternating with printed objects and
      arrays, exactly the first `max` values come out, in order. */
  lemma {:induction false} ExtractionIsExact(ps: seq<Passage>, tail: string, max: nat)
    requires (forall i :: 0 <= i < |ps| ==> GoodPassage(ps[i])) && NoOpener(tail)
    ensures |ValuesOf(ps)| == |ps|
    ensures Extract(TextOf(ps, tail), max) == ValuesOf(ps)[..if max < |ps| then max else |ps|]
    decreases |ps|
  {
    hide ScanLength, FindOpener, Print, Extract;
    ValuesLength(ps);
    if ps == [] {
      NothingInTail(tail, max);
    } else if max == 0 {
      ExtractNothing(TextOf(ps, tail), max);
    } else {
      var p := ps[0];
      var v, rest := Print(p.value), TextOf(ps[1..], tail);
      ValueIsCutExactly(p.value, rest);
      OpenerAfter(p.prose, v + rest);
      assert TextOf(ps, tail) == p.prose + (v + rest);
      ExtractionIsExact(ps[1..], tail, max - 1);
      hide TextOf;
      CutFirst(p.prose, v, rest, max);
      var n := if max < |ps| then max else |ps|;
      ValuesLength(ps[1..]);
      FirstOf(v, ValuesOf(ps[1..]), n - 1);
    }
  }
}
