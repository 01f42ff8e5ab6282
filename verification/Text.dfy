/** Optional values and the string trimming used across the modules. */
module Text {
  datatype Option<+T> = None | Some(value: T)

  /** The Unicode White_Space characters, which is what `str::trim` removes. */
  predicate IsSpace(c: char) {
    var n := c as int;
    || 0x09 <= n <= 0x0D || n == 0x20 || n == 0x85 || n == 0xA0 || n == 0x1680
    || 0x2000 <= n <= 0x200A || n == 0x2028 || n == 0x2029 || n == 0x202F || n == 0x205F || n == 0x3000
  }

  function TrimStart(s: string): string {
    if s != [] && IsSpace(s[0]) then TrimStart(s[1..]) else s
  }

  function TrimEnd(s: string): string {
    if s != [] && IsSpace(s[|s| - 1]) then TrimEnd(s[..|s| - 1]) else s
  }

  function Trim(s: string): string {
    TrimEnd(TrimStart(s))
  }

  lemma {:induction false} TrimStartEdge(s: string)
    ensures TrimStart(s) == [] || !IsSpace(TrimStart(s)[0])
  {
    if s != [] && IsSpace(s[0]) { TrimStartEdge(s[1..]); }
  }

  lemma {:induction false} TrimEndEdges(s: string)
    ensures TrimEnd(s) <= s
    ensures TrimEnd(s) == [] || !IsSpace(TrimEnd(s)[|TrimEnd(s)| - 1])
  {
    if s != [] && IsSpace(s[|s| - 1]) { TrimEndEdges(s[..|s| - 1]); }
  }

  predicate Blank(s: string) {
    forall i :: 0 <= i < |s| ==> IsSpace(s[i])
  }

  predicate NoBlankEdges(s: string) {
    s != [] ==> !IsSpace(s[0]) && !IsSpace(s[|s| - 1])
  }

  lemma {:induction false} TrimStartSplits(s: string)
    ensures var k := |s| - |TrimStart(s)|; k >= 0 && Blank(s[..k]) && TrimStart(s) == s[k..]
  {
    if s != [] && IsSpace(s[0]) {
      var rest := s[1..];
      TrimStartSplits(rest);
      hide IsSpace;
      var k := |rest| - |TrimStart(rest)|;
      forall i | 0 <= i < k + 1 ensures IsSpace(s[i]) {
        if i > 0 { assert rest[..k][i - 1] == s[i]; }
      }
    }
  }

  lemma {:induction false} TrimEndSplits(s: string)
    ensures |TrimEnd(s)| <= |s| && TrimEnd(s) == s[..|TrimEnd(s)|] && Blank(s[|TrimEnd(s)|..])
  {
    if s != [] && IsSpace(s[|s| - 1]) {
      TrimEndSplits(s[..|s| - 1]);
      var k := |TrimEnd(s)|;
      forall i | k <= i < |s| ensures IsSpace(s[i]) {
        if i < |s| - 1 { assert s[..|s| - 1][k..][i - k] == s[i]; }
      }
    }
  }

  lemma {:induction false} BlankIsDropped(pre: string, s: string)
    requires Blank(pre) && (s != [] ==> !IsSpace(s[0]))
    ensures TrimStart(pre + s) == s
  {
    if pre != [] {
      assert (pre + s)[1..] == pre[1..] + s;
      BlankIsDropped(pre[1..], s);
    } else {
      assert pre + s == s;
    }
  }

  lemma {:induction false} BlankEndIsDropped(s: string, post: string)
    requires Blank(post) && (s != [] ==> !IsSpace(s[|s| - 1]))
    ensures TrimEnd(s + post) == s
  {
    if post != [] {
      var n := |post| - 1;
      assert (s + post)[..|s + post| - 1] == s + post[..n];
      BlankEndIsDropped(s, post[..n]);
    } else {
      assert s + post == s;
    }
  }

  lemma TrimOf(pre: string, t: string, post: string)
    requires Blank(pre) && Blank(post) && NoBlankEdges(t)
    ensures Trim(pre + t + post) == t
  {
    if t == [] {
      assert pre + t + post == (pre + post) + [];
      BlankIsDropped(pre + post, []);
      assert TrimEnd([]) == [];
    } else {
      assert pre + t + post == pre + (t + post);
      BlankIsDropped(pre, t + post);
      BlankEndIsDropped(t, post);
    }
  }

  lemma TrimOfSlice(s: string, a: nat, b: nat)
    requires a <= b <= |s| && Blank(s[..a]) && Blank(s[b..]) && NoBlankEdges(s[a..b])
    ensures Trim(s) == s[a..b]
  {
    assert s == s[..a] + s[a..b] + s[b..];
    TrimOf(s[..a], s[a..b], s[b..]);
  }

  /** Trimming leaves the one piece that only white space surrounds and that neither begins nor
      ends with any. */
  lemma TrimIsMiddle(s: string, t: string)
    ensures Trim(s) == t <==>
            NoBlankEdges(t)
            && exists a, b :: 0 <= a <= b <= |s| && t == s[a..b] && Blank(s[..a]) && Blank(s[b..])
  {
    TrimStartEdge(s);
    TrimStartSplits(s);
    var m := TrimStart(s);
    TrimEndEdges(m);
    TrimEndSplits(m);
    var k := |s| - |m|;
    var n := k + |TrimEnd(m)|;
    assert Trim(s) == s[k..n] && NoBlankEdges(Trim(s));
    assert m[|TrimEnd(m)|..] == s[n..];
    hide Trim, TrimStart, TrimEnd, Blank, NoBlankEdges, IsSpace;
    forall a, b | 0 <= a <= b <= |s| && t == s[a..b] && Blank(s[..a]) && Blank(s[b..]) && NoBlankEdges(t)
      ensures Trim(s) == t
    {
      TrimOfSlice(s, a, b);
    }
  }

  /** A trimmed string has no white space at either end, so trimming again changes nothing. */
  lemma TrimIdempotent(s: string)
    ensures Trim(Trim(s)) == Trim(s)
  {
    var t := Trim(s);
    TrimStartEdge(s);
    TrimEndEdges(TrimStart(s));
    assert TrimStart(t) == t;
    assert TrimEnd(t) == t;
  }
}
