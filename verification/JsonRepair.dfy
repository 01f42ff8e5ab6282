/** Repair of JSON-like text: raw control characters and invalid escapes inside string
    literals. The repairs are scanners over characters; the reading below says what a text's
    literals mean, leniently, and section 7 of RFC 8259 says which texts it accepts. */
module JsonRepair {
  import opened Text

  // ---- The two scanners ------------------------------------------------------------------

  /** The flags `in_str` and `esc` of the control-character scanner. */
  datatype Mode = Mode(inStr: bool, esc: bool)

  const OUTSIDE := Mode(false, false)
  const INSIDE := Mode(true, false)

  predicate IsControl(c: char) {
    c as int < 0x20
  }

  function HexDigit(n: nat): char
    requires n < 16
  {
    "0123456789abcdef"[n]
  }

  /** What may follow a backslash in a literal: section 7 of RFC 8259. */
  predicate IsIntroducer(c: char) {
    c in "\"\\/bfnrtu"
  }

  /** The escape written for a control character. */
  function EscapeOf(c: char): (e: string)
    requires IsControl(c)
    ensures |e| >= 2 && e[0] == '\\' && IsIntroducer(e[1])
  {
    if c == '\n' then "\\n"
    else if c == '\r' then "\\r"
    else if c == '\t' then "\\t"
    else if c == 8 as char then "\\b"
    else if c == 12 as char then "\\f"
    else "\\u00" + [HexDigit(c as int / 16), HexDigit(c as int % 16)]
  }

  function EscapeStep(m: Mode, c: char): (string, Mode) {
    if m.esc then ([c], m.(esc := false))
    else if c == '\\' then ([c], m.(esc := true))
    else if c == '"' then ([c], m.(inStr := !m.inStr))
    else if m.inStr && IsControl(c) then (EscapeOf(c), m)
    else ([c], m)
  }

  function Escaped(m: Mode, s: string): string
    decreases |s|
  {
    if s == [] then []
    else
      var (out, m') := EscapeStep(m, s[0]);
      out + Escaped(m', s[1..])
  }

  lemma EscapedAt(out: string, m: Mode, s: string, i: nat)
    requires i < |s|
    ensures var (emit, m') := EscapeStep(m, s[i]);
            out + Escaped(m, s[i..]) == (out + emit) + Escaped(m', s[i + 1..])
  {
    assert s[i..][1..] == s[i + 1..];
  }

  /** `escape_control_chars_in_json_strings`. */
  method EscapeControlChars(s: string) returns (out: string)
    ensures out == Escaped(OUTSIDE, s)
  {
    out := [];
    var inStr, esc := false, false;
    for i := 0 to |s|
      invariant out + Escaped(Mode(inStr, esc), s[i..]) == Escaped(OUTSIDE, s)
    {
      var ch := s[i];
      EscapedAt(out, Mode(inStr, esc), s, i);
      if inStr {
        if esc {
          out := out + [ch];
          esc := false;
        } else if ch == '\\' {
          out := out + [ch];
          esc := true;
        } else if IsControl(ch) {
          out := out + EscapeOf(ch);
        } else if ch == '"' {
          out := out + [ch];
          inStr := false;
        } else {
          out := out + [ch];
        }
      } else if esc {
        out := out + [ch];
        esc := false;
      } else {
        out := out + [ch];
        if ch == '"' { inStr := true; } else if ch == '\\' { esc := true; }
      }
    }
  }

  function Repaired(inStr: bool, s: string): string
    decreases |s|
  {
    if s == [] then []
    else if !inStr then [s[0]] + Repaired(s[0] == '"', s[1..])
    else if s[0] == '"' then [s[0]] + Repaired(false, s[1..])
    else if s[0] == '\\' && |s| == 1 then [s[0]]
    else if s[0] == '\\' && IsIntroducer(s[1]) then s[..2] + Repaired(true, s[2..])
    else if s[0] == '\\' then "\\\\" + Repaired(true, s[1..])
    else [s[0]] + Repaired(true, s[1..])
  }

  /** What one character of a text contributes to its repair. */
  lemma RepairedAt(inStr: bool, s: string, i: nat)
    requires i < |s|
    ensures var c, after := s[i], s[i + 1..];
            Repaired(inStr, s[i..]) ==
              if !inStr then [c] + Repaired(c == '"', after)
              else if c == '"' then [c] + Repaired(false, after)
              else if c != '\\' || after == [] then [c] + Repaired(true, after)
              else if IsIntroducer(after[0]) then [c, after[0]] + Repaired(true, s[i + 2..])
              else "\\\\" + Repaired(true, after)
  {
    var t := s[i..];
    assert t[1..] == s[i + 1..];
    if |t| > 1 { assert t[2..] == s[i + 2..] && t[..2] == [t[0], t[1]]; }
  }

  lemma Regroup(a: string, b: string, c: string)
    ensures a + (b + c) == (a + b) + c
  {
  }

  /** `repair_invalid_json_escapes`. */
  method RepairInvalidEscapes(s: string) returns (out: string)
    ensures out == Repaired(false, s)
  {
    out := [];
    var inStr := false;
    var i := 0;
    assert s[0..] == s;
    while i < |s|
      invariant 0 <= i <= |s|
      invariant out + Repaired(inStr, s[i..]) == Repaired(false, s)
    {
      hide Repaired;
      RepairedAt(inStr, s, i);
      ghost var before := out;
      var emit: string;
      var ch := s[i];
      i := i + 1;
      if !inStr {
        emit := [ch];
        if ch == '"' { inStr := true; }
      } else if ch == '"' {
        emit := [ch];
        inStr := false;
      } else if ch == '\\' {
        if i < |s| {
          if IsIntroducer(s[i]) {
            emit := [ch, s[i]];
            i := i + 1;
          } else {
            emit := "\\\\";
          }
        } else {
          emit := [ch];
        }
      } else {
        emit := [ch];
      }
      out := out + emit;
      Regroup(before, emit, Repaired(inStr, s[i..]));
    }
  }

  // ---- What a text means -----------------------------------------------------------------

  /** A text as it is read: characters outside literals, the quotes that bound literals, and
      in a literal one code per character it denotes. `BareU` is `\u` without four hex digits,
      `Dangling` a backslash at the very end. */
  datatype Token = Plain(c: char) | Open | Close | Code(n: int) | BareU | Dangling

  predicate IsHex(c: char) {
    || '0' <= c <= '9' || 'a' <= c <= 'f' || 'A' <= c <= 'F'
  }

  function HexValue(c: char): int {
    if '0' <= c <= '9' then c as int - '0' as int
    else if 'a' <= c <= 'f' then c as int - 'a' as int + 10
    else c as int - 'A' as int + 10
  }

  predicate FourHex(s: string) {
    |s| >= 4 && IsHex(s[0]) && IsHex(s[1]) && IsHex(s[2]) && IsHex(s[3])
  }

  function FourValue(s: string): int
    requires |s| >= 4
  {
    ((HexValue(s[0]) * 16 + HexValue(s[1])) * 16 + HexValue(s[2])) * 16 + HexValue(s[3])
  }

  /** What a two-character escape denotes. */
  function SimpleCode(c: char): int {
    if c == 'b' then 8 else if c == 'f' then 12 else if c == 'n' then 10
    else if c == 'r' then 13 else if c == 't' then 9 else c as int
  }

  /** The lenient reading: a control character denotes itself, and so does a backslash that
      introduces nothing. */
  function Read(inStr: bool, s: string): seq<Token>
    decreases |s|
  {
    if s == [] then []
    else if !inStr then
      if s[0] == '"' then [Open] + Read(true, s[1..]) else [Plain(s[0])] + Read(false, s[1..])
    else if s[0] == '"' then [Close] + Read(false, s[1..])
    else if s[0] != '\\' then [Code(s[0] as int)] + Read(true, s[1..])
    else if |s| == 1 then [Dangling]
    else if s[1] == 'u' then
      if FourHex(s[2..]) then [Code(FourValue(s[2..]))] + Read(true, s[6..]) else [BareU] + Read(true, s[2..])
    else if IsIntroducer(s[1]) then [Code(SimpleCode(s[1]))] + Read(true, s[2..])
    else [Code('\\' as int)] + Read(true, s[1..])
  }

  function Then(t: Token, rest: Option<seq<Token>>): Option<seq<Token>> {
    if rest.None? then None else Some([t] + rest.value)
  }

  /** The reading by section 7 of RFC 8259, which has no lenient cases: control characters
      must be escaped, only the listed escapes exist, and a literal must be closed. */
  function StrictRead(inStr: bool, s: string): Option<seq<Token>>
    decreases |s|
  {
    if s == [] then (if inStr then None else Some([]))
    else if !inStr then
      if s[0] == '"' then Then(Open, StrictRead(true, s[1..])) else Then(Plain(s[0]), StrictRead(false, s[1..]))
    else if s[0] == '"' then Then(Close, StrictRead(false, s[1..]))
    else if s[0] != '\\' then
      if IsControl(s[0]) then None else Then(Code(s[0] as int), StrictRead(true, s[1..]))
    else if |s| == 1 then None
    else if s[1] == 'u' then
      if FourHex(s[2..]) then Then(Code(FourValue(s[2..])), StrictRead(true, s[6..])) else None
    else if IsIntroducer(s[1]) then Then(Code(SimpleCode(s[1])), StrictRead(true, s[2..]))
    else None
  }

  /** No backslash outside literals, as in every JSON text. */
  predicate NoStrayBackslash(inStr: bool, s: string)
    decreases |s|
  {
    if s == [] then true
    else if !inStr then s[0] != '\\' && NoStrayBackslash(s[0] == '"', s[1..])
    else if s[0] == '"' then NoStrayBackslash(false, s[1..])
    else if s[0] == '\\' && |s| > 1 && IsIntroducer(s[1]) then NoStrayBackslash(true, s[2..])
    else NoStrayBackslash(true, s[1..])
  }

  /** Defects that no repair removes: `\u` without digits, a final backslash, an open literal. */
  predicate Repairable(inStr: bool, toks: seq<Token>)
    decreases |toks|
  {
    if toks == [] then !inStr
    else !toks[0].BareU? && !toks[0].Dangling?
         && Repairable(if toks[0].Open? then true else if toks[0].Close? then false else inStr, toks[1..])
  }

  // ---- Repair of escapes -------------------------------------------------------------------

  /** One character of a literal under repair: an ordinary one stays, and the first one is a
      hex digit only if it was. */
  lemma RepairedPlain(s: string)
    ensures s != [] && s[0] != '\\' && s[0] != '"' ==> Repaired(true, s) == [s[0]] + Repaired(true, s[1..])
    ensures Repaired(true, s) == [] <==> s == []
    ensures s != [] ==> Repaired(true, s)[0] == s[0]
  {
  }

  lemma {:induction false} RepairedHex(s: string)
    ensures FourHex(Repaired(true, s)) <==> FourHex(s)
    ensures FourHex(s) ==> Repaired(true, s) == s[..4] + Repaired(true, s[4..])
  {
    RepairedPlain(s);
    if s != [] && IsHex(s[0]) {
      RepairedPlain(s[1..]);
      if |s| > 1 && IsHex(s[1]) {
        assert s[1..][1..] == s[2..];
        RepairedPlain(s[2..]);
        if |s| > 2 && IsHex(s[2]) {
          assert s[2..][1..] == s[3..];
          RepairedPlain(s[3..]);
          if |s| > 3 && IsHex(s[3]) { assert s[3..][1..] == s[4..]; }
        }
      }
    }
  }

  lemma ReadEscape(s: string)
    requires |s| > 1 && s[0] == '\\'
    ensures Read(true, s) ==
            if s[1] == 'u' then
              if FourHex(s[2..]) then [Code(FourValue(s[2..]))] + Read(true, s[6..]) else [BareU] + Read(true, s[2..])
            else if IsIntroducer(s[1]) then [Code(SimpleCode(s[1]))] + Read(true, s[2..])
            else [Code('\\' as int)] + Read(true, s[1..])
  {
    hide FourHex, FourValue;
  }

  lemma ReadOrdinary(s: string)
    requires s != [] && s[0] != '\\' && s[0] != '"'
    ensures Read(true, s) == [Code(s[0] as int)] + Read(true, s[1..])
  {
  }

  lemma {:induction false} RepairKeepsReading(inStr: bool, s: string)
    ensures Read(inStr, Repaired(inStr, s)) == Read(inStr, s)
    decreases |s|
  {
    var r := Repaired(inStr, s);
    if s == [] {
    } else if !inStr {
      RepairKeepsReading(s[0] == '"', s[1..]);
      assert r[1..] == Repaired(s[0] == '"', s[1..]);
    } else if s[0] == '"' {
      RepairKeepsReading(false, s[1..]);
      assert r[1..] == Repaired(false, s[1..]);
    } else if s[0] == '\\' && |s| == 1 {
    } else if s[0] == '\\' && IsIntroducer(s[1]) {
      RepairKeepsEscape(s);
    } else if s[0] == '\\' {
      RepairKeepsReading(true, s[1..]);
      assert r[0] == '\\' && r[1] == '\\' && r[2..] == Repaired(true, s[1..]);
    } else {
      RepairKeepsReading(true, s[1..]);
      assert r[1..] == Repaired(true, s[1..]);
    }
  }

  lemma SameFour(a: string, b: string)
    requires |a| >= 4 && |b| >= 4 && a[..4] == b[..4]
    ensures FourValue(a) == FourValue(b)
  {
    assert forall i :: 0 <= i < 4 ==> a[i] == a[..4][i] && b[i] == b[..4][i];
  }

  lemma {:induction false} RepairKeepsEscape(s: string)
    requires |s| > 1 && s[0] == '\\' && IsIntroducer(s[1])
    ensures Read(true, Repaired(true, s)) == Read(true, s)
    decreases |s|, 0
  {
    var r, rest := Repaired(true, s), Repaired(true, s[2..]);
    assert r == s[..2] + rest;
    hide Read, Repaired, FourValue;
    assert r[2..] == rest;
    ReadEscape(s);
    ReadEscape(r);
    RepairedHex(s[2..]);
    if s[1] == 'u' && FourHex(s[2..]) {
      assert s[2..][4..] == s[6..];
      assert r[6..] == rest[4..] == Repaired(true, s[6..]);
      assert FourValue(rest) == FourValue(s[2..]) by { SameFour(rest, s[2..]); }
      RepairKeepsReading(true, s[6..]);
    } else {
      RepairKeepsReading(true, s[2..]);
    }
  }

  /** Escapes after repair: every backslash in a literal introduces an escape or ends the text. */
  predicate ValidIntroducers(inStr: bool, s: string)
    decreases |s|
  {
    if s == [] then true
    else if !inStr then ValidIntroducers(s[0] == '"', s[1..])
    else if s[0] == '"' then ValidIntroducers(false, s[1..])
    else if s[0] == '\\' then |s| == 1 || (IsIntroducer(s[1]) && ValidIntroducers(true, s[2..]))
    else ValidIntroducers(true, s[1..])
  }

  lemma {:induction false} RepairMakesValid(inStr: bool, s: string)
    ensures ValidIntroducers(inStr, Repaired(inStr, s))
    ensures NoStrayBackslash(inStr, s) ==> NoStrayBackslash(inStr, Repaired(inStr, s))
    decreases |s|
  {
    var r := Repaired(inStr, s);
    if s == [] {
    } else if !inStr {
      RepairMakesValid(s[0] == '"', s[1..]);
      assert r[1..] == Repaired(s[0] == '"', s[1..]);
    } else if s[0] == '"' {
      RepairMakesValid(false, s[1..]);
      assert r[1..] == Repaired(false, s[1..]);
    } else if s[0] == '\\' && |s| == 1 {
    } else if s[0] == '\\' && IsIntroducer(s[1]) {
      RepairMakesValid(true, s[2..]);
      assert r[0] == '\\' && r[1] == s[1] && r[2..] == Repaired(true, s[2..]);
    } else if s[0] == '\\' {
      RepairMakesValid(true, s[1..]);
      assert r[0] == '\\' && r[1] == '\\' && r[2..] == Repaired(true, s[1..]);
    } else {
      RepairMakesValid(true, s[1..]);
      assert r[1..] == Repaired(true, s[1..]);
    }
  }

  /** Repair changes nothing exactly when there is nothing to repair. */
  lemma {:induction false} RepairFixpoint(inStr: bool, s: string)
    ensures Repaired(inStr, s) == s <==> ValidIntroducers(inStr, s)
    ensures |Repaired(inStr, s)| >= |s|
    decreases |s|
  {
    if s == [] {
    } else if !inStr {
      RepairFixpoint(s[0] == '"', s[1..]);
      assert Repaired(inStr, s)[1..] == Repaired(s[0] == '"', s[1..]);
    } else if s[0] == '"' {
      RepairFixpoint(false, s[1..]);
      assert Repaired(inStr, s)[1..] == Repaired(false, s[1..]);
    } else if s[0] == '\\' && |s| == 1 {
    } else if s[0] == '\\' && IsIntroducer(s[1]) {
      RepairFixpoint(true, s[2..]);
      assert Repaired(inStr, s)[2..] == Repaired(true, s[2..]);
    } else if s[0] == '\\' {
      RepairFixpoint(true, s[1..]);
      assert |Repaired(inStr, s)| > |s|;
    } else {
      RepairFixpoint(true, s[1..]);
      assert Repaired(inStr, s)[1..] == Repaired(true, s[1..]);
    }
  }

  lemma RepairIdempotent(s: string)
    ensures Repaired(false, Repaired(false, s)) == Repaired(false, s)
  {
    RepairMakesValid(false, s);
    RepairFixpoint(false, Repaired(false, s));
  }

  // ---- Escaping of control characters ------------------------------------------------------

  lemma EscapedNothing(m: Mode)
    ensures Escaped(m, []) == []
  {
  }

  lemma EscapedSingle(s: string)
    requires s != [] && s[0] != '\\'
    ensures IsControl(s[0]) ==> Escaped(INSIDE, s) == EscapeOf(s[0]) + Escaped(INSIDE, s[1..])
    ensures !IsControl(s[0]) ==>
              Escaped(INSIDE, s) == [s[0]] + Escaped(if s[0] == '"' then OUTSIDE else INSIDE, s[1..])
  {
    hide EscapeOf;
  }

  lemma EscapedBackslash(s: string)
    requires s != [] && s[0] == '\\'
    ensures Escaped(INSIDE, s) == [s[0]] + Escaped(Mode(true, true), s[1..])
  {
    hide EscapeOf;
  }

  lemma EscapedNext(t: string)
    requires t != []
    ensures Escaped(Mode(true, true), t) == [t[0]] + Escaped(INSIDE, t[1..])
  {
    hide EscapeOf;
  }

  lemma EscapedPair(s: string)
    requires s != [] && s[0] == '\\'
    ensures Escaped(INSIDE, s) == if |s| == 1 then s else s[..2] + Escaped(INSIDE, s[2..])
  {
    var t := s[1..];
    EscapedBackslash(s);
    if |s| == 1 {
      assert t == [] && s == [s[0]];
      EscapedNothing(Mode(true, true));
    } else {
      EscapedNext(t);
      hide Escaped;
      assert t[1..] == s[2..] && s[..2] == [s[0]] + [t[0]];
    }
  }

  /** Escaping one character of a literal, and what is read back from it. */
  lemma {:induction false} EscapedUnits(s: string)
    ensures Escaped(INSIDE, s) == [] <==> s == []
    ensures s != [] && !IsControl(s[0]) && s[0] != '"' && s[0] != '\\'
            ==> Escaped(INSIDE, s) == [s[0]] + Escaped(INSIDE, s[1..])
    ensures s != [] && IsControl(s[0]) ==> Escaped(INSIDE, s) == EscapeOf(s[0]) + Escaped(INSIDE, s[1..])
    ensures |s| > 1 && s[0] == '\\' ==> Escaped(INSIDE, s) == s[..2] + Escaped(INSIDE, s[2..])
    ensures s == "\\" ==> Escaped(INSIDE, s) == s
    ensures s != [] && s[0] == '"' ==> Escaped(INSIDE, s) == [s[0]] + Escaped(OUTSIDE, s[1..])
  {
    hide Escaped, EscapeOf;
    if s == [] {
      EscapedNothing(INSIDE);
    } else if s[0] == '\\' {
      EscapedPair(s);
    } else {
      EscapedSingle(s);
    }
  }

  predicate HexRun(s: string, n: nat): (b: bool)
    ensures b ==> |s| >= n
  {
    |s| >= n && forall i :: 0 <= i < n ==> IsHex(s[i])
  }

  lemma HexRunTail(s: string, n: nat)
    requires n > 0 && s != [] && IsHex(s[0])
    ensures HexRun(s, n) <==> HexRun(s[1..], n - 1)
  {
    if HexRun(s[1..], n - 1) {
      assert forall i :: 0 <= i < n ==> s[i] == if i == 0 then s[0] else s[1..][i - 1];
    }
  }

  lemma HexDigitValue(n: nat)
    requires n < 16
    ensures IsHex(HexDigit(n)) && HexValue(HexDigit(n)) == n
  {
  }

  /** What is written for a control character denotes that character. */
  lemma ControlReads(c: char, rest: string)
    requires IsControl(c)
    ensures Read(true, EscapeOf(c) + rest) == [Code(c as int)] + Read(true, rest)
    ensures StrictRead(true, EscapeOf(c) + rest) == Then(Code(c as int), StrictRead(true, rest))
  {
    var e := EscapeOf(c) + rest;
    assert e[0] == '\\';
    if |EscapeOf(c)| == 2 {
      assert e[1] == EscapeOf(c)[1] && e[2..] == rest;
    } else {
      var n := c as int;
      assert e[1] == 'u' && e[2..] == "00" + [HexDigit(n / 16), HexDigit(n % 16)] + rest;
      HexDigitValue(n / 16);
      HexDigitValue(n % 16);
      assert e[6..] == rest;
      assert FourHex(e[2..]) && FourValue(e[2..]) == n / 16 * 16 + n % 16 == n;
    }
  }

  // ---- Exactly when escaping keeps the meaning ---------------------------------------------

  /** Where JSON itself sees literals: a backslash has a meaning only inside one. */
  function JsonStep(r: Mode, c: char): Mode {
    if !r.inStr then Mode(c == '"', false)
    else if r.esc then INSIDE
    else if c == '\\' then Mode(true, true)
    else Mode(c != '"', false)
  }

  /** The control-character scanner replaces `c` in state `m`. */
  predicate Replaces(m: Mode, c: char) {
    m.inStr && !m.esc && IsControl(c)
  }

  /** No control character is replaced outside what JSON takes for a literal. */
  predicate ReplacesInside(r: Mode, m: Mode, s: string)
    decreases |s|
  {
    s != [] ==> (Replaces(m, s[0]) ==> r.inStr) && ReplacesInside(JsonStep(r, s[0]), EscapeStep(m, s[0]).1, s[1..])
  }

  /** At every control character the scanner and JSON agree whether it stands in a literal. */
  predicate ControlsAgree(r: Mode, m: Mode, s: string)
    decreases |s|
  {
    s != [] ==>
      && (IsControl(s[0]) ==> (Replaces(m, s[0]) <==> r.inStr))
      && ControlsAgree(JsonStep(r, s[0]), EscapeStep(m, s[0]).1, s[1..])
  }

  lemma TwoSteps(r: Mode, m: Mode, s: string)
    requires |s| > 1 && r == INSIDE && !m.esc && s[0] == '\\'
    ensures Escaped(m, s) == [s[0], s[1]] + Escaped(m, s[2..])
    ensures ReplacesInside(r, m, s) == ReplacesInside(INSIDE, m, s[2..])
    ensures (IsIntroducer(s[1]) ==> ControlsAgree(r, m, s) == ControlsAgree(INSIDE, m, s[2..]))
  {
    var t := s[1..];
    var m' := Mode(m.inStr, true);
    assert t[1..] == s[2..] && t[0] == s[1];
    assert EscapeStep(m, s[0]) == ([s[0]], m') && EscapeStep(m', t[0]) == ([t[0]], m);
    assert Escaped(m', t) == [t[0]] + Escaped(m, t[1..]);
    assert ReplacesInside(Mode(true, true), m', t) == ReplacesInside(INSIDE, m, t[1..]);
    assert IsIntroducer(s[1]) ==> ControlsAgree(Mode(true, true), m', t) == ControlsAgree(INSIDE, m, t[1..]);
    hide EscapeStep, JsonStep, EscapeOf;
  }

  lemma HexCons(c: char, rest: string, n: nat)
    requires n > 0 && IsHex(c)
    ensures HexRun([c] + rest, n) <==> HexRun(rest, n - 1)
  {
    HexRunTail([c] + rest, n);
    assert ([c] + rest)[1..] == rest;
  }

  lemma SplitCons(s: string, n: nat)
    requires 0 < n <= |s|
    ensures s[1..][n - 1..] == s[n..] && [s[0]] + s[1..][..n - 1] == s[..n]
  {
  }

  lemma FirstPasses(m: Mode, s: string)
    requires s != [] && !m.esc
    ensures Escaped(m, s) != [] && (IsHex(Escaped(m, s)[0]) <==> IsHex(s[0]))
  {
    var (out, m') := EscapeStep(m, s[0]);
    assert Escaped(m, s) == out + Escaped(m', s[1..]);
    hide Escaped, EscapeOf;
    assert Escaped(m, s)[0] == out[0];
  }

  lemma HexStep(m: Mode, s: string)
    requires s != [] && !m.esc && IsHex(s[0])
    ensures Escaped(m, s) == [s[0]] + Escaped(m, s[1..])
    ensures ReplacesInside(INSIDE, m, s) == ReplacesInside(INSIDE, m, s[1..])
    ensures ControlsAgree(INSIDE, m, s) == ControlsAgree(INSIDE, m, s[1..])
  {
    assert EscapeStep(m, s[0]) == ([s[0]], m) && JsonStep(INSIDE, s[0]) == INSIDE;
    hide EscapeStep, JsonStep;
  }

  /** Hexadecimal digits pass unchanged in every state. */
  lemma {:induction false} HexPasses(m: Mode, s: string, n: nat)
    requires !m.esc
    ensures HexRun(Escaped(m, s), n) <==> HexRun(s, n)
    ensures HexRun(s, n) ==>
              && Escaped(m, s) == s[..n] + Escaped(m, s[n..])
              && ReplacesInside(INSIDE, m, s) == ReplacesInside(INSIDE, m, s[n..])
              && ControlsAgree(INSIDE, m, s) == ControlsAgree(INSIDE, m, s[n..])
    decreases n
  {
    if n > 0 && s != [] {
      FirstPasses(m, s);
      if IsHex(s[0]) {
        HexPasses(m, s[1..], n - 1);
        HexStep(m, s);
        HexRunTail(s, n);
        HexCons(s[0], Escaped(m, s[1..]), n);
        if |s| >= n { SplitCons(s, n); }
        hide Escaped, ReplacesInside, ControlsAgree, HexRun;
      } else {
        assert !HexRun(s, n) && !HexRun(Escaped(m, s), n);
      }
    }
  }

  lemma SameHead<T>(x: T, a: seq<T>, b: seq<T>)
    ensures [x] + a == [x] + b <==> a == b
  {
    assert ([x] + a)[1..] == a && ([x] + b)[1..] == b;
  }

  /** One character outside escapes: what is written, and the two states after it. */
  lemma OneStep(r: bool, m: Mode, s: string)
    requires s != [] && (r ==> !m.esc && s[0] != '\\')
    ensures var m', r' := EscapeStep(m, s[0]).1, if r then s[0] != '"' else s[0] == '"';
            && (r' ==> !m'.esc)
            && Escaped(m, s) == (if Replaces(m, s[0]) then EscapeOf(s[0]) else [s[0]]) + Escaped(m', s[1..])
            && ReplacesInside(Mode(r, false), m, s)
               == ((Replaces(m, s[0]) ==> r) && ReplacesInside(Mode(r', false), m', s[1..]))
            && ControlsAgree(Mode(r, false), m, s)
               == ((IsControl(s[0]) ==> (Replaces(m, s[0]) <==> r)) && ControlsAgree(Mode(r', false), m', s[1..]))
  {
    hide EscapeOf;
    assert JsonStep(Mode(r, false), s[0]) == Mode(if r then s[0] != '"' else s[0] == '"', false);
  }

  lemma ReadPlain(r: bool, s: string)
    requires s != [] && (r ==> s[0] != '\\')
    ensures var tok := if !r then (if s[0] == '"' then Open else Plain(s[0]))
                       else if s[0] == '"' then Close else Code(s[0] as int);
            var r' := if r then s[0] != '"' else s[0] == '"';
            && Read(r, s) == [tok] + Read(r', s[1..])
            && StrictRead(r, s) == if r && IsControl(s[0]) then None else Then(tok, StrictRead(r', s[1..]))
  {
  }

  /** Escaping keeps the lenient reading of a text exactly when it replaces nothing outside the
      literals; this holds of every text, stray backslashes included. */
  lemma {:induction false} EscapeKeepsReadingExactlyWhen(r: bool, m: Mode, s: string)
    requires r ==> !m.esc
    ensures Read(r, Escaped(m, s)) == Read(r, s) <==> ReplacesInside(Mode(r, false), m, s)
    decreases |s|, 1
  {
    if s == [] {
    } else if r && s[0] == '\\' {
      EscapeKeepsPairExactlyWhen(m, s);
    } else {
      hide Read, Escaped, ReplacesInside, EscapeOf;
      var m', r' := EscapeStep(m, s[0]).1, if r then s[0] != '"' else s[0] == '"';
      var rest := Escaped(m', s[1..]);
      OneStep(r, m, s);
      ReadPlain(r, s);
      EscapeKeepsReadingExactlyWhen(r', m', s[1..]);
      if Replaces(m, s[0]) {
        if r {
          ControlReads(s[0], rest);
          SameHead(Code(s[0] as int), Read(true, rest), Read(true, s[1..]));
        } else {
          ReadPlain(false, EscapeOf(s[0]) + rest);
          assert (EscapeOf(s[0]) + rest)[0] == '\\';
          assert Read(false, EscapeOf(s[0]) + rest)[0] == Plain('\\') && Read(false, s)[0] == Plain(s[0]);
        }
      } else {
        var out := [s[0]] + rest;
        assert out[0] == s[0] && out[1..] == rest;
        ReadPlain(r, out);
        SameHead(Read(r, s)[0], Read(r', rest), Read(r', s[1..]));
      }
    }
  }

  lemma LoneBackslash(m: Mode, s: string)
    requires !m.esc && s == "\\"
    ensures Escaped(m, s) == s && ReplacesInside(INSIDE, m, s) && ControlsAgree(INSIDE, m, s)
    ensures Read(true, s) == [Dangling] && StrictRead(true, s) == None
  {
    assert s[1..] == [];
    EscapedNothing(Mode(m.inStr, true));
  }

  lemma FourHexIsRun(s: string)
    ensures FourHex(s) <==> HexRun(s, 4)
  {
  }

  lemma {:induction false} EscapeKeepsPairExactlyWhen(m: Mode, s: string)
    requires !m.esc && s != [] && s[0] == '\\'
    ensures Read(true, Escaped(m, s)) == Read(true, s) <==> ReplacesInside(INSIDE, m, s)
    decreases |s|, 0
  {
    if |s| == 1 {
      LoneBackslash(m, s);
    } else {
      hide Read, Escaped, ReplacesInside, ControlsAgree, FourHex, FourValue;
      var rest := Escaped(m, s[2..]);
      TwoSteps(INSIDE, m, s);
      var out := [s[0], s[1]] + rest;
      assert out[2..] == rest && out[1..] == [s[1]] + rest;
      ReadEscape(s);
      ReadEscape(out);
      if s[1] == 'u' {
        HexPasses(m, s[2..], 4);
        FourHexIsRun(s[2..]);
        FourHexIsRun(rest);
        if FourHex(s[2..]) {
          assert s[2..][4..] == s[6..] && out[6..] == rest[4..] == Escaped(m, s[6..]);
          SameFour(rest, s[2..]);
          EscapeKeepsReadingExactlyWhen(true, m, s[6..]);
          SameHead(Code(FourValue(s[2..])), Read(true, Escaped(m, s[6..])), Read(true, s[6..]));
        } else {
          EscapeKeepsReadingExactlyWhen(true, m, s[2..]);
          SameHead(BareU, Read(true, rest), Read(true, s[2..]));
        }
      } else {
        EscapeKeepsReadingExactlyWhen(true, m, s[2..]);
        if IsIntroducer(s[1]) {
          SameHead(Code(SimpleCode(s[1])), Read(true, rest), Read(true, s[2..]));
        } else {
          assert s[1..][1..] == s[2..] && out[1..][1..] == rest;
          ReadOrdinary(s[1..]);
          ReadOrdinary(out[1..]);
          SameHead(Code(s[1] as int), Read(true, rest), Read(true, s[2..]));
          SameHead(Code('\\' as int), Read(true, out[1..]), Read(true, s[1..]));
        }
      }
    }
  }

  lemma {:induction false} NoStrayReplacesInside(r: bool, s: string)
    requires NoStrayBackslash(r, s)
    ensures ReplacesInside(Mode(r, false), Mode(r, false), s)
    decreases |s|
  {
    if s == [] {
    } else if r && s[0] == '\\' {
      if |s| == 1 {
        LoneBackslash(INSIDE, s);
      } else {
        TwoSteps(INSIDE, INSIDE, s);
        assert !IsIntroducer(s[1]) ==> s[1..][1..] == s[2..];
        NoStrayReplacesInside(true, s[2..]);
      }
    } else {
      OneStep(r, Mode(r, false), s);
      NoStrayReplacesInside(if r then s[0] != '"' else s[0] == '"', s[1..]);
    }
  }

  /** Without a backslash outside literals it always keeps the reading. */
  lemma EscapeKeepsReading(inStr: bool, s: string)
    requires NoStrayBackslash(inStr, s)
    ensures Read(inStr, Escaped(Mode(inStr, false), s)) == Read(inStr, s)
  {
    NoStrayReplacesInside(inStr, s);
    EscapeKeepsReadingExactlyWhen(inStr, Mode(inStr, false), s);
  }

  /** After escaping no literal holds a raw control character, and introducers stay valid. */
  predicate NoRawControl(inStr: bool, s: string)
    decreases |s|
  {
    if s == [] then true
    else if !inStr then NoRawControl(s[0] == '"', s[1..])
    else if s[0] == '"' then NoRawControl(false, s[1..])
    else if s[0] == '\\' && |s| > 1 && IsIntroducer(s[1]) then NoRawControl(true, s[2..])
    else !IsControl(s[0]) && NoRawControl(true, s[1..])
  }

  lemma PlainTail(t: string)
    requires t != [] && IsHex(t[0])
    ensures NoRawControl(true, t) == NoRawControl(true, t[1..])
    ensures ValidIntroducers(true, t) == ValidIntroducers(true, t[1..])
  {
  }

  lemma ControlEscapeIsClean(c: char, rest: string)
    requires IsControl(c)
    ensures NoRawControl(true, EscapeOf(c) + rest) == NoRawControl(true, rest)
    ensures ValidIntroducers(true, EscapeOf(c) + rest) == ValidIntroducers(true, rest)
  {
    var e := EscapeOf(c) + rest;
    assert e[0] == '\\' && IsIntroducer(e[1]);
    if |EscapeOf(c)| == 2 {
      assert e[2..] == rest;
    } else {
      var n := c as int;
      HexDigitValue(n / 16);
      HexDigitValue(n % 16);
      var t := e[2..];
      assert t == "00" + [HexDigit(n / 16), HexDigit(n % 16)] + rest;
      PlainTail(t);
      PlainTail(t[1..]);
      assert t[1..][1..] == t[2..] && t[2..][1..] == t[3..] && t[3..][1..] == rest;
      PlainTail(t[2..]);
      PlainTail(t[3..]);
    }
  }

  lemma {:induction false} EscapeMakesClean(inStr: bool, s: string)
    requires NoStrayBackslash(inStr, s) && ValidIntroducers(inStr, s)
    ensures NoRawControl(inStr, Escaped(Mode(inStr, false), s))
    ensures ValidIntroducers(inStr, Escaped(Mode(inStr, false), s))
    decreases |s|
  {
    var r := Escaped(Mode(inStr, false), s);
    if s == [] {
    } else if !inStr {
      EscapeMakesClean(s[0] == '"', s[1..]);
      assert r[1..] == Escaped(Mode(s[0] == '"', false), s[1..]);
    } else {
      EscapedUnits(s);
      if s[0] == '"' {
        EscapeMakesClean(false, s[1..]);
        assert r[1..] == Escaped(OUTSIDE, s[1..]);
      } else if IsControl(s[0]) {
        EscapeMakesClean(true, s[1..]);
        ControlEscapeIsClean(s[0], Escaped(INSIDE, s[1..]));
      } else if s[0] != '\\' {
        EscapeMakesClean(true, s[1..]);
        assert r[1..] == Escaped(INSIDE, s[1..]);
      } else if |s| == 1 {
        assert s == "\\";
      } else {
        EscapeMakesClean(true, s[2..]);
        assert r[0] == '\\' && r[1] == s[1] && r[2..] == Escaped(INSIDE, s[2..]);
      }
    }
  }

  lemma EscapeOfShape(c: char)
    requires IsControl(c)
    ensures var e := EscapeOf(c);
            && (|e| == 2 || |e| == 6) && e[0] == '\\' && IsIntroducer(e[1])
            && (|e| == 6 ==> HexRun(e[2..], 4))
  {
    var n := c as int;
    if |EscapeOf(c)| != 2 {
      HexDigitValue(n / 16);
      HexDigitValue(n % 16);
      assert EscapeOf(c)[2..] == "00" + [HexDigit(n / 16), HexDigit(n % 16)];
    }
  }

  lemma ControlEscapeStays(c: char, rest: string)
    requires IsControl(c)
    ensures Escaped(INSIDE, EscapeOf(c) + rest) == EscapeOf(c) + Escaped(INSIDE, rest)
  {
    hide EscapeOf, Escaped;
    EscapeOfShape(c);
    var e := EscapeOf(c) + rest;
    EscapedUnits(e);
    if |EscapeOf(c)| == 2 {
      assert e[2..] == rest && e[..2] == EscapeOf(c);
    } else {
      var t := e[2..];
      assert t == EscapeOf(c)[2..] + rest && t[4..] == rest;
      assert HexRun(t, 4);
      HexPasses(INSIDE, t, 4);
      assert e[..2] + t[..4] == EscapeOf(c);
    }
  }

  /** Escaping twice is escaping once, on every text. */
  lemma {:induction false} EscapeIdempotent(m: Mode, s: string)
    ensures Escaped(m, Escaped(m, s)) == Escaped(m, s)
    decreases |s|
  {
    if s != [] {
      var (out, m') := EscapeStep(m, s[0]);
      EscapeIdempotent(m', s[1..]);
      var rest := Escaped(m', s[1..]);
      if m.inStr && !m.esc && IsControl(s[0]) {
        ControlEscapeStays(s[0], rest);
      } else {
        assert Escaped(m, s)[0] == s[0] && Escaped(m, s)[1..] == rest;
      }
    }
  }

  /** Escaping changes nothing where no literal holds a raw control character. */
  lemma {:induction false} EscapeFixpoint(inStr: bool, s: string)
    requires NoStrayBackslash(inStr, s) && ValidIntroducers(inStr, s) && NoRawControl(inStr, s)
    ensures Escaped(Mode(inStr, false), s) == s
    decreases |s|
  {
    if s == [] {
    } else if !inStr {
      EscapeFixpoint(s[0] == '"', s[1..]);
    } else {
      EscapedUnits(s);
      if s[0] == '"' {
        EscapeFixpoint(false, s[1..]);
      } else if s[0] != '\\' {
        EscapeFixpoint(true, s[1..]);
      } else if |s| == 1 {
        assert s == "\\";
      } else {
        EscapeFixpoint(true, s[2..]);
        assert s[..2] + s[2..] == s;
      }
    }
  }

  // ---- The main results --------------------------------------------------------------------

  /** Section 7 of RFC 8259 reads a text without raw control characters or invalid introducers
      just as the lenient reading does, unless a defect remains that cannot be repaired. */
  lemma {:induction false} CleanIsStrict(inStr: bool, s: string)
    requires NoRawControl(inStr, s) && ValidIntroducers(inStr, s)
    ensures StrictRead(inStr, s) == if Repairable(inStr, Read(inStr, s)) then Some(Read(inStr, s)) else None
    decreases |s|
  {
    if s == [] {
    } else if !inStr {
      CleanIsStrict(s[0] == '"', s[1..]);
    } else if s[0] == '"' {
      CleanIsStrict(false, s[1..]);
    } else if s[0] != '\\' {
      CleanIsStrict(true, s[1..]);
    } else if |s| == 1 {
    } else if s[1] == 'u' {
      if FourHex(s[2..]) {
        assert s[2..][1..] == s[3..] && s[3..][1..] == s[4..] && s[4..][1..] == s[5..] && s[5..][1..] == s[6..];
        PlainTail(s[2..]);
        PlainTail(s[3..]);
        PlainTail(s[4..]);
        PlainTail(s[5..]);
        CleanIsStrict(true, s[6..]);
      }
    } else {
      CleanIsStrict(true, s[2..]);
    }
  }

  function BothRepairs(s: string): string {
    Escaped(OUTSIDE, Repaired(false, s))
  }

  /** Repair preserves meaning. Applied in this order the two repairs leave the lenient
      reading of the text unchanged, literal boundaries included, and section 7 of RFC 8259
      accepts the result with that same reading exactly when the original had no defect of the
      kinds that neither repair addresses. */
  lemma RepairPreservesMeaning(s: string)
    requires NoStrayBackslash(false, s)
    ensures Read(false, BothRepairs(s)) == Read(false, s)
    ensures StrictRead(false, BothRepairs(s))
         == if Repairable(false, Read(false, s)) then Some(Read(false, s)) else None
  {
    RepairKeepsReading(false, s);
    RepairMakesValid(false, s);
    EscapeKeepsReading(false, Repaired(false, s));
    EscapeMakesClean(false, Repaired(false, s));
    CleanIsStrict(false, BothRepairs(s));
  }

  lemma {:induction false} StrictIsClean(inStr: bool, s: string)
    requires StrictRead(inStr, s).Some?
    ensures NoRawControl(inStr, s) && ValidIntroducers(inStr, s)
    ensures StrictRead(inStr, s).value == Read(inStr, s)
    decreases |s|
  {
    if s == [] {
    } else if !inStr {
      StrictIsClean(s[0] == '"', s[1..]);
    } else if s[0] == '"' {
      StrictIsClean(false, s[1..]);
    } else if s[0] != '\\' {
      StrictIsClean(true, s[1..]);
    } else if s[1] == 'u' {
      assert s[2..][1..] == s[3..] && s[3..][1..] == s[4..] && s[4..][1..] == s[5..] && s[5..][1..] == s[6..];
      StrictIsClean(true, s[6..]);
      PlainTail(s[2..]);
      PlainTail(s[3..]);
      PlainTail(s[4..]);
      PlainTail(s[5..]);
    } else {
      StrictIsClean(true, s[2..]);
    }
  }

  /** Both repairs are the identity on every text that section 7 of RFC 8259 accepts. */
  lemma RepairsKeepWellFormed(s: string)
    requires NoStrayBackslash(false, s) && StrictRead(false, s).Some?
    ensures Repaired(false, s) == s && Escaped(OUTSIDE, s) == s
  {
    StrictIsClean(false, s);
    RepairFixpoint(false, s);
    EscapeFixpoint(false, s);
  }

  /** The hypothesis is needed: after a backslash outside a literal the control-character
      scanner takes the next quote for an escaped one, and the raw newline stays. */
  lemma StrayBackslashMisleads()
    ensures var s := "\\\"\n\"";
            && !NoStrayBackslash(false, s) && Repairable(false, Read(false, s))
            && StrictRead(false, BothRepairs(s)) == None
  {
    var s := "\\\"\n\"";
    assert s[1..] == "\"\n\"" && s[2..] == "\n\"" && s[3..] == "\"" && s[4..] == "";
    assert s[1..][1..] == s[2..] && s[2..][1..] == s[3..] && s[3..][1..] == s[4..];
    assert Read(false, s[4..]) == [];
    assert Read(true, s[3..]) == [Close];
    assert Read(true, s[2..]) == [Code(10), Close];
    assert Read(false, s[1..]) == [Open, Code(10), Close];
    var toks := Read(false, s);
    assert toks == [Plain('\\'), Open, Code(10), Close];
    assert toks[1..] == [Open, Code(10), Close] && toks[1..][1..] == [Code(10), Close];
    assert [Code(10), Close][1..] == [Close] && [Close][1..] == [];
    assert Repairable(true, [Close]) && Repairable(true, [Code(10), Close]);
    assert Repaired(false, s[4..]) == [] && Repaired(true, s[3..]) == s[3..];
    assert Repaired(true, s[2..]) == s[2..] && Repaired(false, s[1..]) == s[1..] && Repaired(false, s) == s;
    assert Escaped(INSIDE, s[4..]) == [] && Escaped(OUTSIDE, s[3..]) == s[3..];
    assert Escaped(OUTSIDE, s[2..]) == s[2..] && Escaped(Mode(false, true), s[1..]) == s[1..];
    assert Escaped(OUTSIDE, s) == s;
    assert StrictRead(true, s[2..]) == None;
  }

  // ---- Exactly when the repairs work -------------------------------------------------------

  lemma StrictEscape(s: string)
    requires |s| > 1 && s[0] == '\\' && IsIntroducer(s[1])
    ensures StrictRead(true, s) ==
            if s[1] == 'u' then
              if FourHex(s[2..]) then Then(Code(FourValue(s[2..])), StrictRead(true, s[6..])) else None
            else Then(Code(SimpleCode(s[1])), StrictRead(true, s[2..]))
  {
    hide FourHex, FourValue;
  }

  lemma RepairableHead(r: bool, tok: Token, rest: seq<Token>)
    ensures Repairable(r, [tok] + rest)
         == (!tok.BareU? && !tok.Dangling?
             && Repairable(if tok.Open? then true else if tok.Close? then false else r, rest))
  {
    assert ([tok] + rest)[1..] == rest;
  }

  lemma SameThen(tok: Token, a: Option<seq<Token>>, b: seq<Token>)
    ensures Then(tok, a) == Some([tok] + b) <==> a == Some(b)
  {
    if a.Some? { SameHead(tok, a.value, b); }
  }

  lemma ThenHead(tok: Token, a: Option<seq<Token>>, b: seq<Token>)
    requires b != [] && b[0] != tok
    ensures Then(tok, a) != Some(b)
  {
  }

  /** On a text whose introducers are valid, section 7 of RFC 8259 accepts the escaped text with
      the lenient reading of the original exactly when nothing irreparable is there and the
      scanner agrees with JSON at every control character. */
  lemma {:induction false} EscapeSucceedsExactlyWhen(r: bool, m: Mode, s: string)
    requires (r ==> !m.esc) && ValidIntroducers(r, s)
    ensures StrictRead(r, Escaped(m, s)) == Some(Read(r, s))
       <==> Repairable(r, Read(r, s)) && ControlsAgree(Mode(r, false), m, s)
    decreases |s|, 1
  {
    if s == [] {
    } else if r && s[0] == '\\' {
      EscapeSucceedsAtPair(m, s);
    } else {
      assert ValidIntroducers(if r then s[0] != '"' else s[0] == '"', s[1..]);
      hide Read, StrictRead, Escaped, ControlsAgree, EscapeOf, ReplacesInside, ValidIntroducers, Then, Repairable;
      var m', r' := EscapeStep(m, s[0]).1, if r then s[0] != '"' else s[0] == '"';
      var rest := Escaped(m', s[1..]);
      OneStep(r, m, s);
      ReadPlain(r, s);
      EscapeSucceedsExactlyWhen(r', m', s[1..]);
      var tok := Read(r, s)[0];
      RepairableHead(r, tok, Read(r', s[1..]));
      if Replaces(m, s[0]) {
        if r {
          ControlReads(s[0], rest);
          SameThen(tok, StrictRead(true, rest), Read(true, s[1..]));
        } else {
          ReadPlain(false, EscapeOf(s[0]) + rest);
          assert (EscapeOf(s[0]) + rest)[0] == '\\';
          ThenHead(Plain('\\'), StrictRead(false, (EscapeOf(s[0]) + rest)[1..]), Read(false, s));
        }
      } else {
        var out := [s[0]] + rest;
        assert out[0] == s[0] && out[1..] == rest;
        ReadPlain(r, out);
        SameThen(tok, StrictRead(r', rest), Read(r', s[1..]));
      }
    }
  }

  lemma HexKeepsValid(s: string)
    requires FourHex(s) && ValidIntroducers(true, s)
    ensures ValidIntroducers(true, s[4..])
  {
    assert s[1..][1..] == s[2..] && s[2..][1..] == s[3..] && s[3..][1..] == s[4..];
    PlainTail(s);
    PlainTail(s[1..]);
    PlainTail(s[2..]);
    PlainTail(s[3..]);
  }

  lemma {:induction false} EscapeSucceedsAtPair(m: Mode, s: string)
    requires !m.esc && s != [] && s[0] == '\\' && ValidIntroducers(true, s)
    ensures StrictRead(true, Escaped(m, s)) == Some(Read(true, s))
       <==> Repairable(true, Read(true, s)) && ControlsAgree(INSIDE, m, s)
    decreases |s|, 0
  {
    if |s| == 1 {
      LoneBackslash(m, s);
    } else {
      assert IsIntroducer(s[1]) && ValidIntroducers(true, s[2..]);
      hide Read, StrictRead, Escaped, ControlsAgree, ReplacesInside, FourHex, FourValue, Then, Repairable;
      var rest := Escaped(m, s[2..]);
      TwoSteps(INSIDE, m, s);
      var out := [s[0], s[1]] + rest;
      assert out[2..] == rest;
      ReadEscape(s);
      StrictEscape(out);
      if s[1] == 'u' {
        HexPasses(m, s[2..], 4);
        FourHexIsRun(s[2..]);
        FourHexIsRun(rest);
        if FourHex(s[2..]) {
          assert s[2..][4..] == s[6..] && out[6..] == rest[4..] == Escaped(m, s[6..]);
          SameFour(rest, s[2..]);
          HexKeepsValid(s[2..]);
          EscapeSucceedsExactlyWhen(true, m, s[6..]);
          var tok := Code(FourValue(s[2..]));
          RepairableHead(true, tok, Read(true, s[6..]));
          SameThen(tok, StrictRead(true, Escaped(m, s[6..])), Read(true, s[6..]));
        } else {
          RepairableHead(true, BareU, Read(true, s[2..]));
        }
      } else {
        EscapeSucceedsExactlyWhen(true, m, s[2..]);
        var tok := Code(SimpleCode(s[1]));
        RepairableHead(true, tok, Read(true, s[2..]));
        SameThen(tok, StrictRead(true, rest), Read(true, s[2..]));
      }
    }
  }

  /** The exact condition, on every text: the two repairs yield a text that section 7 of RFC 8259
      accepts with the meaning of the original if and only if the original holds nothing
      irreparable and, after the repair of its escapes, the control-character scanner and JSON
      agree at every control character. */
  lemma RepairsSucceedExactlyWhen(s: string)
    ensures StrictRead(false, BothRepairs(s)) == Some(Read(false, s))
       <==> Repairable(false, Read(false, s)) && ControlsAgree(OUTSIDE, OUTSIDE, Repaired(false, s))
  {
    RepairKeepsReading(false, s);
    RepairMakesValid(false, s);
    EscapeSucceedsExactlyWhen(false, OUTSIDE, Repaired(false, s));
  }

  /** Without a backslash outside literals the two always agree. */
  lemma {:induction false} NoStrayBackslashAgrees(r: bool, s: string)
    requires NoStrayBackslash(r, s) && ValidIntroducers(r, s)
    ensures ControlsAgree(Mode(r, false), Mode(r, false), s)
    decreases |s|
  {
    if s == [] {
    } else if r && s[0] == '\\' {
      if |s| == 1 {
        LoneBackslash(INSIDE, s);
      } else {
        TwoSteps(INSIDE, INSIDE, s);
        NoStrayBackslashAgrees(true, s[2..]);
      }
    } else {
      OneStep(r, Mode(r, false), s);
      NoStrayBackslashAgrees(if r then s[0] != '"' else s[0] == '"', s[1..]);
    }
  }

  // ---- The chain ---------------------------------------------------------------------------

  /** `resilient_parse_string_field` over any JSON parser. */
  function ResilientParse<V>(parse: string -> Option<V>, raw: string): Option<V> {
    if parse(raw).Some? then parse(raw)
    else if parse(Escaped(OUTSIDE, raw)).Some? then parse(Escaped(OUTSIDE, raw))
    else if parse(Repaired(false, raw)).Some? then parse(Repaired(false, raw))
    else parse(BothRepairs(raw))
  }

  /** Whatever the chain returns is the parse of a text with the meaning of the original, and
      it fails only if all four candidates fail. */
  lemma ResilientParseKeepsMeaning<V>(parse: string -> Option<V>, raw: string)
    requires NoStrayBackslash(false, raw)
    ensures ResilientParse(parse, raw).Some? ==>
              exists t :: Read(false, t) == Read(false, raw) && parse(t) == ResilientParse(parse, raw)
    ensures parse(BothRepairs(raw)).Some? ==> ResilientParse(parse, raw).Some?
  {
    RepairKeepsReading(false, raw);
    EscapeKeepsReading(false, raw);
    RepairPreservesMeaning(raw);
  }
}
