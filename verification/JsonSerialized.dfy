/** What JSON serializers print, on one line or indented, is cut out of prose exactly. */
module JsonSerialized {
  import opened JsonExtract
  import JsonRepair

  /** A JSON value without layout; strings hold any characters. */
  datatype Value =
    | Literal(text: string)
    | Text(content: string)
    | List(elements: seq<Value>)
    | Record(fields: seq<Field>)
  datatype Field = Field(key: string, value: Value)

  /** A serializer's two styles: all on one line, or each element on a line of its own that is
      indented by two blanks a level. */
  datatype Style = Compact | Pretty

  function Blanks(n: nat): string {
    seq(n, _ => ' ')
  }

  function NewLine(style: Style, depth: nat): string {
    match style case Compact => "" case Pretty => "\n" + Blanks(2 * depth)
  }

  function Colon(style: Style): string {
    match style case Compact => ":" case Pretty => ": "
  }

  /** The escaped content of a string literal. */
  function LiteralBody(s: string): string {
    if s == [] then ""
    else (if JsonRepair.IsControl(s[0]) then JsonRepair.EscapeOf(s[0])
          else if s[0] == '"' || s[0] == '\\' then ['\\', s[0]]
          else [s[0]]) + LiteralBody(s[1..])
  }

  /** The printed text, without any notion of layout trees. */
  function Serialized(v: Value, style: Style, depth: nat): string {
    match v
    case Literal(text) => text
    case Text(content) => Quoted(LiteralBody(content))
    case List(vs) => "[" + ElementsText(vs, style, depth, true) + (if vs == [] then "" else NewLine(style, depth)) + "]"
    case Record(fs) => "{" + FieldsText(fs, style, depth, true) + (if fs == [] then "" else NewLine(style, depth)) + "}"
  }

  function Separator(style: Style, depth: nat, first: bool): string {
    (if first then "" else ",") + NewLine(style, depth + 1)
  }

  function ElementsText(vs: seq<Value>, style: Style, depth: nat, first: bool): string {
    if vs == [] then ""
    else Separator(style, depth, first) + Serialized(vs[0], style, depth + 1) + ElementsText(vs[1..], style, depth, false)
  }

  function FieldsText(fs: seq<Field>, style: Style, depth: nat, first: bool): string {
    if fs == [] then ""
    else Separator(style, depth, first) + Quoted(LiteralBody(fs[0].key)) + Colon(style)
         + Serialized(fs[0].value, style, depth + 1) + FieldsText(fs[1..], style, depth, false)
  }

  /** The same value with the layout of a style. */
  function Laid(v: Value, style: Style, depth: nat): Json {
    match v
    case Literal(text) => Atom(text)
    case Text(content) => Str(LiteralBody(content))
    case List(vs) => Arr(LaidItems(vs, style, depth, true), if vs == [] then "" else NewLine(style, depth))
    case Record(fs) => Obj(LaidMembers(fs, style, depth, true), if fs == [] then "" else NewLine(style, depth))
  }

  function LaidItems(vs: seq<Value>, style: Style, depth: nat, first: bool): seq<Item> {
    if vs == [] then []
    else [Item(Separator(style, depth, first), Laid(vs[0], style, depth + 1))] + LaidItems(vs[1..], style, depth, false)
  }

  function LaidMembers(fs: seq<Field>, style: Style, depth: nat, first: bool): seq<Member> {
    if fs == [] then []
    else [Member(Separator(style, depth, first), LiteralBody(fs[0].key), Colon(style), Laid(fs[0].value, style, depth + 1))]
         + LaidMembers(fs[1..], style, depth, false)
  }

  /** Numbers, `true`, `false` and `null` hold no bracket and no quote. */
  predicate GoodLiterals(v: Value) {
    match v
    case Literal(text) => Filler(text)
    case Text(_) => true
    case List(vs) => forall i :: 0 <= i < |vs| ==> GoodLiterals(vs[i])
    case Record(fs) => forall i :: 0 <= i < |fs| ==> GoodLiterals(fs[i].value)
  }

  lemma {:induction false} PlainPrefix(plain: string, rest: string)
    requires Body(rest) && forall i :: 0 <= i < |plain| ==> plain[i] != '"' && plain[i] != '\\'
    ensures Body(plain + rest)
  {
    if plain == [] {
      assert plain + rest == rest;
    } else {
      assert (plain + rest)[1..] == plain[1..] + rest;
      PlainPrefix(plain[1..], rest);
    }
  }

  lemma BodyAfterEscape(c: char, rest: string)
    requires Body(rest)
    ensures JsonRepair.IsControl(c) ==> Body(JsonRepair.EscapeOf(c) + rest)
    ensures c == '"' || c == '\\' ==> Body(['\\', c] + rest)
    ensures !JsonRepair.IsControl(c) && c != '"' && c != '\\' ==> Body([c] + rest)
  {
    if c == '"' || c == '\\' { assert (['\\', c] + rest)[2..] == rest; }
    assert ([c] + rest)[1..] == rest;
    if JsonRepair.IsControl(c) {
      var e := JsonRepair.EscapeOf(c) + rest;
      if |JsonRepair.EscapeOf(c)| == 2 {
        assert e[2..] == rest;
      } else {
        var n := c as int;
        JsonRepair.HexDigitValue(n / 16);
        JsonRepair.HexDigitValue(n % 16);
        assert e[2..] == ['0', '0', JsonRepair.HexDigit(n / 16), JsonRepair.HexDigit(n % 16)] + rest;
        PlainPrefix(['0', '0', JsonRepair.HexDigit(n / 16), JsonRepair.HexDigit(n % 16)], rest);
      }
    }
  }

  /** Whatever a string holds, its printed content is the inside of one literal. */
  lemma {:induction false} LiteralBodyIsBody(s: string)
    ensures Body(LiteralBody(s))
  {
    if s != [] {
      LiteralBodyIsBody(s[1..]);
      BodyAfterEscape(s[0], LiteralBody(s[1..]));
    }
  }

  /** Both styles print what the layout tree prints. */
  lemma {:induction false} LaidPrints(v: Value, style: Style, depth: nat)
    ensures Print(Laid(v, style, depth)) == Serialized(v, style, depth)
    decreases v, 1
  {
    hide LiteralBody, NewLine, Separator, Quoted;
    match v
    case Literal(_) =>
    case Text(_) =>
    case List(vs) => LaidItemsPrint(v, vs, style, depth, true);
    case Record(fs) => LaidMembersPrint(v, fs, style, depth, true);
  }

  lemma {:induction false} LaidItemsPrint(v: Value, vs: seq<Value>, style: Style, depth: nat, first: bool)
    requires forall i :: 0 <= i < |vs| ==> vs[i] < v
    ensures PrintItems(LaidItems(vs, style, depth, first)) == ElementsText(vs, style, depth, first)
    decreases v, 0, |vs|
  {
    if vs != [] {
      LaidPrints(vs[0], style, depth + 1);
      LaidItemsPrint(v, vs[1..], style, depth, false);
      hide Separator, Serialized, Print, Laid;
      assert LaidItems(vs, style, depth, first)[1..] == LaidItems(vs[1..], style, depth, false);
    }
  }

  lemma {:induction false} LaidMembersPrint(v: Value, fs: seq<Field>, style: Style, depth: nat, first: bool)
    requires forall i :: 0 <= i < |fs| ==> fs[i].value < v
    ensures PrintMembers(LaidMembers(fs, style, depth, first)) == FieldsText(fs, style, depth, first)
    decreases v, 0, |fs|
  {
    if fs != [] {
      LaidPrints(fs[0].value, style, depth + 1);
      LaidMembersPrint(v, fs[1..], style, depth, false);
      hide Separator, Serialized, Print, Laid, LiteralBody, Quoted;
      assert LaidMembers(fs, style, depth, first)[1..] == LaidMembers(fs[1..], style, depth, false);
    }
  }

  lemma SeparatorsAreFiller(style: Style, depth: nat, first: bool)
    ensures Filler("") && Filler(Separator(style, depth, first)) && Filler(NewLine(style, depth)) && Filler(Colon(style))
  {
  }

  lemma {:induction false} LaidItemsAt(vs: seq<Value>, style: Style, depth: nat, first: bool)
    ensures var items := LaidItems(vs, style, depth, first);
            && |items| == |vs|
            && forall i :: 0 <= i < |vs| ==>
                 items[i] == Item(Separator(style, depth, first && i == 0), Laid(vs[i], style, depth + 1))
  {
    hide Separator, Laid;
    if vs != [] {
      LaidItemsAt(vs[1..], style, depth, false);
      var rest := LaidItems(vs[1..], style, depth, false);
      forall i | 0 < i < |vs| ensures LaidItems(vs, style, depth, first)[i] == rest[i - 1] {}
    }
  }

  lemma {:induction false} LaidMembersAt(fs: seq<Field>, style: Style, depth: nat, first: bool)
    ensures var members := LaidMembers(fs, style, depth, first);
            && |members| == |fs|
            && forall i :: 0 <= i < |fs| ==>
                 members[i] == Member(Separator(style, depth, first && i == 0), LiteralBody(fs[i].key), Colon(style),
                                      Laid(fs[i].value, style, depth + 1))
  {
    hide Separator, Laid, LiteralBody, Colon;
    if fs != [] {
      LaidMembersAt(fs[1..], style, depth, false);
      var rest := LaidMembers(fs[1..], style, depth, false);
      forall i | 0 < i < |fs| ensures LaidMembers(fs, style, depth, first)[i] == rest[i - 1] {}
    }
  }

  lemma TrailsAreFiller(v: Value, style: Style, depth: nat)
    ensures v.List? ==>
              Laid(v, style, depth).Arr? && Filler(Laid(v, style, depth).trail)
              && Laid(v, style, depth).items == LaidItems(v.elements, style, depth, true)
    ensures v.Record? ==>
              Laid(v, style, depth).Obj? && Filler(Laid(v, style, depth).trail)
              && Laid(v, style, depth).members == LaidMembers(v.fields, style, depth, true)
  {
    SeparatorsAreFiller(style, depth, true);
    hide Filler, NewLine, LaidItems, LaidMembers;
  }

  lemma {:induction false} LaidWellFormed(v: Value, style: Style, depth: nat)
    requires GoodLiterals(v)
    ensures WellFormed(Laid(v, style, depth))
    decreases v, 1
  {
    match v
    case Literal(_) =>
    case Text(content) => LiteralBodyIsBody(content);
    case List(vs) => LaidListWellFormed(vs, v, style, depth);
    case Record(fs) => LaidRecordWellFormed(fs, v, style, depth);
  }

  lemma {:induction false} LaidListWellFormed(vs: seq<Value>, v: Value, style: Style, depth: nat)
    requires v == List(vs) && forall i :: 0 <= i < |vs| ==> GoodLiterals(vs[i])
    ensures WellFormed(Laid(v, style, depth))
    decreases v, 0
  {
    hide LaidItems, Laid, Separator, Filler, GoodLiterals;
    TrailsAreFiller(v, style, depth);
    LaidItemsAt(vs, style, depth, true);
    var items := LaidItems(vs, style, depth, true);
    forall i | 0 <= i < |items| ensures Filler(items[i].lead) && WellFormed(items[i].value) {
      hide WellFormed;
      SeparatorsAreFiller(style, depth, i == 0);
      LaidWellFormed(vs[i], style, depth + 1);
    }
  }

  lemma {:induction false} LaidRecordWellFormed(fs: seq<Field>, v: Value, style: Style, depth: nat)
    requires v == Record(fs) && forall i :: 0 <= i < |fs| ==> GoodLiterals(fs[i].value)
    ensures WellFormed(Laid(v, style, depth))
    decreases v, 0
  {
    hide LaidMembers, Laid, Separator, Filler, GoodLiterals, Body, LiteralBody, Colon;
    TrailsAreFiller(v, style, depth);
    LaidMembersAt(fs, style, depth, true);
    var members := LaidMembers(fs, style, depth, true);
    forall i | 0 <= i < |members|
      ensures Filler(members[i].lead) && Body(members[i].key) && Filler(members[i].colon) && WellFormed(members[i].value)
    {
      hide WellFormed;
      SeparatorsAreFiller(style, depth, i == 0);
      LiteralBodyIsBody(fs[i].key);
      LaidWellFormed(fs[i].value, style, depth + 1);
    }
  }

  /** One printed object or array with prose before it. */
  datatype Answer = Answer(prose: string, value: Value, style: Style)

  predicate GoodAnswer(a: Answer) {
    NoOpener(a.prose) && (a.value.List? || a.value.Record?) && GoodLiterals(a.value)
  }

  function AnswersText(answers: seq<Answer>, tail: string): string {
    if answers == [] then tail
    else answers[0].prose + Serialized(answers[0].value, answers[0].style, 0) + AnswersText(answers[1..], tail)
  }

  function PrintedValues(answers: seq<Answer>): seq<string> {
    if answers == [] then []
    else [Serialized(answers[0].value, answers[0].style, 0)] + PrintedValues(answers[1..])
  }

  function Passages(answers: seq<Answer>): seq<Passage> {
    if answers == [] then []
    else [Passage(answers[0].prose, Laid(answers[0].value, answers[0].style, 0))] + Passages(answers[1..])
  }

  lemma {:induction false} AnswersArePassages(answers: seq<Answer>, tail: string)
    requires forall i :: 0 <= i < |answers| ==> GoodAnswer(answers[i])
    ensures TextOf(Passages(answers), tail) == AnswersText(answers, tail)
    ensures ValuesOf(Passages(answers)) == PrintedValues(answers) && |Passages(answers)| == |answers|
    ensures forall i :: 0 <= i < |answers| ==> GoodPassage(Passages(answers)[i])
  {
    if answers != [] {
      var a := answers[0];
      AnswersArePassages(answers[1..], tail);
      LaidPrints(a.value, a.style, 0);
      LaidWellFormed(a.value, a.style, 0);
      assert Passages(answers)[1..] == Passages(answers[1..]);
      hide WellFormed, Print, Serialized;
    }
  }

  /** Exact extraction of what a serializer prints: any objects and arrays, compact or indented,
      whatever their strings hold, come out of opener-free prose exactly and in order. */
  lemma SerializedValuesComeOut(answers: seq<Answer>, tail: string, max: nat)
    requires (forall i :: 0 <= i < |answers| ==> GoodAnswer(answers[i])) && NoOpener(tail)
    ensures |PrintedValues(answers)| == |answers|
    ensures Extract(AnswersText(answers, tail), max)
         == PrintedValues(answers)[..if max < |answers| then max else |answers|]
  {
    AnswersArePassages(answers, tail);
    hide GoodAnswer, GoodPassage;
    ExtractionIsExact(Passages(answers), tail, max);
  }
}
