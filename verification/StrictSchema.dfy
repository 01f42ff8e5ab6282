/** The strict form of a JSON schema: closed objects with every property required. */
module StrictSchema {

  /** Object fields are unordered here and sorted by key in the source; only their listing in
      `required` shows an order. */
  datatype Json =
    | Null
    | Bool(b: bool)
    | Number(text: string)
    | String(s: string)
    | Array(items: seq<Json>)
    | Object(fields: map<string, Json>)

  // ---- Sorted listings of strings -----------------------------------------------------------

  /** Strictly before, by code points. */
  predicate Less(a: string, b: string) {
    b != [] && (a == [] || a[0] < b[0] || (a[0] == b[0] && Less(a[1..], b[1..])))
  }

  lemma {:induction false} LessIsStrictOrder(a: string, b: string, c: string)
    ensures !Less(a, a)
    ensures Less(a, b) || a == b || Less(b, a)
    ensures !(Less(a, b) && Less(b, a))
    ensures Less(a, b) && Less(b, c) ==> Less(a, c)
  {
    if a != [] {
      LessIsStrictOrder(a[1..], if b == [] then b else b[1..], if c == [] then c else c[1..]);
      if b != [] && a[0] == b[0] && a[1..] == b[1..] { assert a == [a[0]] + a[1..] == b; }
    }
  }

  ghost predicate Sorted(s: seq<string>) {
    forall i, j :: 0 <= i < j < |s| ==> Less(s[i], s[j])
  }

  ghost function Elements<T>(s: seq<T>): set<T> {
    set x | x in s
  }

  lemma TailElements(s: seq<string>)
    requires Sorted(s) && s != []
    ensures Elements(s[1..]) == Elements(s) - {s[0]}
  {
    forall x | x in s && x != s[0] ensures x in s[1..] {
      var i :| 0 <= i < |s| && s[i] == x;
      assert s[1..][i - 1] == x;
    }
    forall i | 0 < i < |s| ensures s[i] != s[0] {
      LessIsStrictOrder(s[0], s[i], s[0]);
    }
  }

  lemma {:induction false} ListingIsUnique(s: seq<string>, t: seq<string>)
    requires Sorted(s) && Sorted(t) && Elements(s) == Elements(t)
    ensures s == t
  {
    if s == [] {
      assert forall i :: 0 <= i < |t| ==> t[i] in Elements(t);
      assert |t| == 0;
    } else {
      assert s[0] in Elements(t) && t != [];
      assert t[0] in Elements(s);
      var i :| 0 <= i < |t| && t[i] == s[0];
      var j :| 0 <= j < |s| && s[j] == t[0];
      LessIsStrictOrder(s[0], t[0], s[0]);
      assert s[0] == t[0];
      TailElements(s);
      TailElements(t);
      ListingIsUnique(s[1..], t[1..]);
    }
  }

  lemma ElementsSnoc<T>(s: seq<T>, x: T)
    ensures Elements(s + [x]) == Elements(s) + {x}
  {}

  /** `sort` and `dedup` in one: put `x` in its place unless it is there. */
  function Insert(s: seq<string>, x: string): seq<string> {
    if s == [] then [x]
    else if x == s[0] then s
    else if Less(x, s[0]) then [x] + s
    else [s[0]] + Insert(s[1..], x)
  }

  lemma SortedCons(x: string, rest: seq<string>)
    requires Sorted(rest) && forall j :: 0 <= j < |rest| ==> Less(x, rest[j])
    ensures Sorted([x] + rest) && Elements([x] + rest) == {x} + Elements(rest)
  {
    hide Less;
  }

  lemma {:induction false} InsertKeepsSorted(s: seq<string>, x: string)
    requires Sorted(s)
    ensures Sorted(Insert(s, x)) && Elements(Insert(s, x)) == Elements(s) + {x}
  {
    if s != [] {
      assert s == [s[0]] + s[1..];
      assert Elements(s) == {s[0]} + Elements(s[1..]);
      if x != s[0] {
        LessIsStrictOrder(x, s[0], x);
        if Less(x, s[0]) {
          forall j | 0 < j < |s| ensures Less(x, s[j]) { LessIsStrictOrder(x, s[0], s[j]); }
          assert Elements([x] + s) == {x} + Elements(s);
        } else {
          InsertKeepsSorted(s[1..], x);
          var rest := Insert(s[1..], x);
          hide Less, Insert;
          forall j | 0 <= j < |rest| ensures Less(s[0], rest[j]) {
            assert rest[j] in Elements(rest);
          }
          SortedCons(s[0], rest);
        }
      }
    }
  }

  /** The one sorted listing of a set of strings. */
  ghost function Listing(names: set<string>): (s: seq<string>)
    ensures Sorted(s) && Elements(s) == names
  {
    if names == {} then []
    else
      var x :| x in names;
      InsertKeepsSorted(Listing(names - {x}), x);
      Insert(Listing(names - {x}), x)
  }

  // ---- The rewrite, as a function -----------------------------------------------------------

  ghost function StringsIn(items: seq<Json>): set<string> {
    set x | x in items && x.String? :: x.s
  }

  lemma StringsSnoc(items: seq<Json>, x: Json)
    ensures StringsIn(items + [x]) == StringsIn(items) + if x.String? then {x.s} else {}
  {}

  function AsStrings(s: seq<string>): (r: seq<Json>)
    ensures |r| == |s| && forall i :: 0 <= i < |s| ==> r[i] == String(s[i])
  {
    seq(|s|, i requires 0 <= i < |s| => String(s[i]))
  }

  predicate HasProperties(m: map<string, Json>) {
    "properties" in m && m["properties"].Object?
  }

  ghost function AlreadyRequired(m: map<string, Json>): set<string> {
    if "required" in m && m["required"].Array? then StringsIn(m["required"].items) else {}
  }

  ghost function RequireAll(m: map<string, Json>): map<string, Json> {
    if !HasProperties(m) then m
    else
      var closed := if "additionalProperties" in m then m else m["additionalProperties" := Bool(false)];
      closed["required" := Array(AsStrings(Listing(AlreadyRequired(m) + m["properties"].fields.Keys)))]
  }

  ghost function Strict(v: Json): Json {
    match v
    case Array(items) => Array(seq(|items|, i requires 0 <= i < |items| => Strict(items[i])))
    case Object(m) =>
      if "$ref" in m then Object(map["$ref" := m["$ref"]])
      else Object(RequireAll(map k | k in m :: Strict(m[k])))
    case _ => v
  }

  // ---- The rewrite, in place ----------------------------------------------------------------

  /** The string entries of an array, in order. */
  method StringEntries(items: seq<Json>) returns (names: seq<string>)
    ensures Elements(names) == StringsIn(items)
  {
    names := [];
    for i := 0 to |items|
      invariant Elements(names) == StringsIn(items[..i])
    {
      assert items[..i + 1] == items[..i] + [items[i]];
      StringsSnoc(items[..i], items[i]);
      if items[i].String? {
        ElementsSnoc(names, items[i].s);
        names := names + [items[i].s];
      }
    }
    assert items[..|items|] == items;
  }

  method SortDedup(names: seq<string>) returns (sorted: seq<string>)
    ensures sorted == Listing(Elements(names))
  {
    sorted := [];
    for i := 0 to |names|
      invariant Sorted(sorted) && Elements(sorted) == Elements(names[..i])
    {
      hide Sorted;
      InsertKeepsSorted(sorted, names[i]);
      assert names[..i + 1] == names[..i] + [names[i]];
      ElementsSnoc(names[..i], names[i]);
      sorted := Insert(sorted, names[i]);
    }
    assert names[..|names|] == names;
    ListingIsUnique(sorted, Listing(Elements(names)));
  }

  lemma InElements<T>(s: seq<T>, x: T)
    ensures x in Elements(s) <==> x in s
  {
  }

  /** Rewrites the fields of one object; children have been rewritten already. */
  method EnsureAllPropertiesRequired(m: map<string, Json>) returns (r: map<string, Json>)
    ensures r == RequireAll(m)
  {
    if "properties" !in m || !m["properties"].Object? { return m; }
    var keys := m["properties"].fields.Keys;
    r := m;
    if "additionalProperties" !in r { r := r["additionalProperties" := Bool(false)]; }
    var names: seq<string> := [];
    if "required" in m && m["required"].Array? { names := StringEntries(m["required"].items); }
    assert Elements(names) == AlreadyRequired(m);
    var todo := keys;
    while todo != {}
      invariant todo <= keys
      invariant Elements(names) == AlreadyRequired(m) + (keys - todo)
      decreases todo
    {
      hide AlreadyRequired, Elements;
      var k :| k in todo;
      if k !in names {
        ElementsSnoc(names, k);
        names := names + [k];
      } else {
        assert k in Elements(names) by { InElements(names, k); }
      }
      todo := todo - {k};
    }
    hide AlreadyRequired, Elements, Listing, AsStrings;
    assert Elements(names) == AlreadyRequired(m) + keys;
    var sorted := SortDedup(names);
    r := r["required" := Array(AsStrings(sorted))];
  }

  method Strictify(v: Json) returns (r: Json)
    ensures r == Strict(v)
    decreases v
  {
    if v.Array? {
      var items := v.items;
      for i := 0 to |items|
        invariant |items| == |v.items| && items[i..] == v.items[i..]
        invariant forall j :: 0 <= j < i ==> items[j] == Strict(v.items[j])
      {
        assert items[i] == items[i..][0];
        var x := Strictify(v.items[i]);
        items := items[i := x];
      }
      return Array(items);
    }
    if !v.Object? { return v; }
    if "$ref" in v.fields { return Object(map["$ref" := v.fields["$ref"]]); }
    var m := v.fields;
    var todo := m.Keys;
    while todo != {}
      invariant todo <= v.fields.Keys == m.Keys
      invariant forall k :: k in m ==> m[k] == if k in todo then v.fields[k] else Strict(v.fields[k])
      decreases todo
    {
      var k :| k in todo;
      var x := Strictify(v.fields[k]);
      m := m[k := x];
      todo := todo - {k};
    }
    assert m == map k | k in v.fields :: Strict(v.fields[k]);
    m := EnsureAllPropertiesRequired(m);
    return Object(m);
  }

  // ---- The target ---------------------------------------------------------------------------

  /** A sorted, duplicate-free array of strings naming every property. */
  ghost predicate RequiresAll(m: map<string, Json>)
    requires HasProperties(m)
  {
    && "required" in m && m["required"].Array?
    && var items := m["required"].items;
    && (forall i :: 0 <= i < |items| ==> items[i].String?)
    && (forall i, j :: 0 <= i < j < |items| ==> Less(items[i].s, items[j].s))
    && forall k :: k in m["properties"].fields ==> String(k) in items
  }

  /** No reference has siblings and every object with properties is closed and complete. */
  ghost predicate IsStrict(v: Json) {
    match v
    case Array(items) => forall i :: 0 <= i < |items| ==> IsStrict(items[i])
    case Object(m) =>
      if "$ref" in m then m.Keys == {"$ref"}
      else
        && (forall k :: k in m ==> IsStrict(m[k]))
        && (HasProperties(m) ==> "additionalProperties" in m && RequiresAll(m))
    case _ => true
  }

  lemma AsStringsHold(s: seq<string>)
    ensures StringsIn(AsStrings(s)) == Elements(s)
  {
    forall x: string | x in s ensures String(x) in AsStrings(s) {
      var i :| 0 <= i < |s| && s[i] == x;
      assert AsStrings(s)[i] == String(x);
    }
  }

  /** The rewrite of one object closes and completes it. */
  lemma RequiredNames(m: map<string, Json>)
    requires HasProperties(m)
    ensures var r := RequireAll(m);
            && HasProperties(r) && r["properties"] == m["properties"]
            && "additionalProperties" in r && RequiresAll(r)
            && AlreadyRequired(r) == AlreadyRequired(m) + m["properties"].fields.Keys
  {
    var names := AlreadyRequired(m) + m["properties"].fields.Keys;
    var listed := AsStrings(Listing(names));
    AsStringsHold(Listing(names));
    assert RequireAll(m)["required"] == Array(listed);
    forall k | k in m["properties"].fields ensures String(k) in listed {
      assert k in StringsIn(listed);
    }
  }

  /** A sorted array of strings that names every property is its own listing. */
  lemma CompleteIsListed(m: map<string, Json>)
    requires HasProperties(m) && RequiresAll(m)
    ensures m["required"] == Array(AsStrings(Listing(AlreadyRequired(m) + m["properties"].fields.Keys)))
  {
    var names := AlreadyRequired(m) + m["properties"].fields.Keys;
    var items := m["required"].items;
    var plain := seq(|items|, i requires 0 <= i < |items| => items[i].s);
    assert AsStrings(plain) == items;
    AsStringsHold(plain);
    assert names == Elements(plain);
    ListingIsUnique(plain, Listing(names));
  }

  /** The rewrite of one object leaves it as it is exactly when it is closed and complete. */
  lemma RequireAllFixes(m: map<string, Json>)
    requires HasProperties(m)
    ensures RequireAll(m) == m <==> "additionalProperties" in m && RequiresAll(m)
    ensures HasProperties(RequireAll(m)) && RequireAll(RequireAll(m)) == RequireAll(m)
  {
    var m' := RequireAll(m);
    RequiredNames(m);
    hide AlreadyRequired;
    CompleteIsListed(m');
    if RequiresAll(m) { CompleteIsListed(m); }
    hide RequiresAll;
  }

  ghost function Children(m: map<string, Json>): map<string, Json> {
    map k | k in m :: Strict(m[k])
  }

  lemma ListedIsStrict(m: map<string, Json>)
    requires HasProperties(m)
    ensures IsStrict(RequireAll(m)["required"])
  {}

  /** What the rewrite of one object leaves alone. */
  lemma RequireAllElsewhere(m: map<string, Json>)
    ensures !HasProperties(m) ==> RequireAll(m) == m
    ensures m.Keys <= RequireAll(m).Keys <= m.Keys + {"additionalProperties", "required"}
    ensures forall k :: k in m && k != "required" ==> RequireAll(m)[k] == m[k]
    ensures "additionalProperties" !in m && HasProperties(m) ==> RequireAll(m)["additionalProperties"] == Bool(false)
  {}

  lemma UnchangedIsStrict(m: map<string, Json>, c: map<string, Json>)
    requires "$ref" !in m && RequireAll(c) == m
    requires forall k :: k in m && k in c && c[k] == m[k] ==> IsStrict(m[k])
    requires c.Keys == m.Keys
    ensures IsStrict(Object(m))
  {
    RequireAllElsewhere(c);
    if HasProperties(c) {
      RequireAllFixes(c);
      RequireAllFixes(m);
      ListedIsStrict(c);
    }
    hide RequireAll, RequiresAll;
    forall k | k in m ensures IsStrict(m[k]) {
      if k != "required" || !HasProperties(c) { assert m[k] == c[k]; }
    }
  }

  /** Where the children already agree: one object is unchanged exactly when it is strict. */
  lemma {:induction false} ObjectUnchanged(m: map<string, Json>)
    requires "$ref" !in m && forall k :: k in m ==> (Strict(m[k]) == m[k] <==> IsStrict(m[k]))
    ensures RequireAll(Children(m)) == m <==> IsStrict(Object(m))
  {
    var c := Children(m);
    if IsStrict(Object(m)) {
      assert c == m;
      RequireAllElsewhere(m);
      if HasProperties(m) { RequireAllFixes(m); }
    } else if RequireAll(c) == m {
      UnchangedIsStrict(m, c);
    }
  }

  /** The rewrite changes nothing exactly on the schemas that have reached the target. */
  lemma {:induction false} UnchangedExactlyWhenStrict(v: Json)
    ensures Strict(v) == v <==> IsStrict(v)
    decreases v
  {
    if v.Array? {
      var items := v.items;
      forall i | 0 <= i < |items| { UnchangedExactlyWhenStrict(items[i]); }
      hide RequireAll, RequiresAll;
      if Strict(v) == v {
        forall i | 0 <= i < |items| ensures IsStrict(items[i]) {
          assert Strict(v).items[i] == items[i];
        }
      }
    } else if v.Object? && "$ref" !in v.fields {
      var m := v.fields;
      forall k | k in m ensures Strict(m[k]) == m[k] <==> IsStrict(m[k]) { UnchangedExactlyWhenStrict(m[k]); }
      assert Strict(v) == Object(RequireAll(Children(m)));
      hide RequireAll, Strict, IsStrict, Children;
      ObjectUnchanged(m);
    }
  }

  lemma ClosedIsStrict(c: map<string, Json>)
    requires "$ref" !in c && forall k :: k in c ==> IsStrict(c[k])
    ensures IsStrict(Object(RequireAll(c)))
  {
    var r := RequireAll(c);
    RequireAllElsewhere(c);
    if HasProperties(c) {
      RequireAllFixes(c);
      RequireAllFixes(r);
      ListedIsStrict(c);
    }
    hide RequireAll, RequiresAll;
    forall k | k in r ensures IsStrict(r[k]) {
      if k in c && k != "required" { assert r[k] == c[k]; }
    }
  }

  lemma {:induction false} StrictReachesTarget(v: Json)
    ensures IsStrict(Strict(v))
    decreases v
  {
    if v.Array? {
      forall i | 0 <= i < |v.items| { StrictReachesTarget(v.items[i]); }
    } else if v.Object? && "$ref" !in v.fields {
      var m, c := v.fields, Children(v.fields);
      forall k | k in m ensures IsStrict(c[k]) { StrictReachesTarget(m[k]); }
      hide RequireAll;
      assert Strict(v) == Object(RequireAll(c));
      ClosedIsStrict(c);
    }
  }

  /** A second pass changes nothing. */
  lemma {:induction false} StrictIsIdempotent(v: Json)
    ensures Strict(Strict(v)) == Strict(v)
  {
    StrictReachesTarget(v);
    UnchangedExactlyWhenStrict(Strict(v));
  }

  // ---- What survives ------------------------------------------------------------------------

  lemma StringsSurvive(items: seq<Json>)
    ensures StringsIn(Strict(Array(items)).items) == StringsIn(items)
  {
    var after := Strict(Array(items)).items;
    forall i | 0 <= i < |items| ensures after[i] == Strict(items[i]) {}
    forall x: Json | x in items && x.String? ensures x in after {
      var i :| 0 <= i < |items| && items[i] == x;
      assert after[i] == x;
    }
  }

  lemma ChildrenRequired(m: map<string, Json>)
    ensures AlreadyRequired(Children(m)) == AlreadyRequired(m)
  {
    var c := Children(m);
    if "required" in m {
      assert c["required"] == Strict(m["required"]);
      if m["required"].Array? {
        StringsSurvive(m["required"].items);
      }
    }
  }

  /** At an object with properties, `required` afterwards names what it named before and every
      property, and nothing else. */
  lemma {:induction false} RequiredIsExact(m: map<string, Json>)
    requires "$ref" !in m && HasProperties(m)
    ensures var r := Strict(Object(m)).fields;
            && HasProperties(r) && RequiresAll(r)
            && StringsIn(r["required"].items) == AlreadyRequired(m) + r["properties"].fields.Keys
  {
    var c := Children(m);
    assert Strict(Object(m)) == Object(RequireAll(c));
    assert HasProperties(c);
    ChildrenRequired(m);
    RequiredNames(c);
    hide Strict, Children;
  }

  /** What the rewrite does to one object: a reference keeps its own value and loses its
      siblings; elsewhere every field but `required` becomes its rewrite, and an object with
      properties is closed where it said nothing and keeps what it said where it did. */
  lemma FieldsAfter(m: map<string, Json>)
    ensures "$ref" in m ==> Strict(Object(m)) == Object(map["$ref" := m["$ref"]])
    ensures "$ref" !in m ==>
              var r := Strict(Object(m)).fields;
              && (forall k :: k in m && (k != "required" || !HasProperties(m)) ==> k in r && r[k] == Strict(m[k]))
              && r.Keys == m.Keys + (if HasProperties(m) then {"additionalProperties", "required"} else {})
              && (HasProperties(m) && "additionalProperties" !in m ==> r["additionalProperties"] == Bool(false))
  {
    if "$ref" !in m {
      var c := Children(m);
      assert Strict(Object(m)) == Object(RequireAll(c));
      assert HasProperties(m) <==> HasProperties(c);
      RequireAllElsewhere(c);
    }
  }

  /** The rewrite also enters the map of properties, which is no schema. It keeps exactly the
      declared names unless one of them is `$ref`, or one is `properties` with an object value. */
  lemma NamesKeptExactlyWhen(p: map<string, Json>)
    ensures Strict(Object(p)).fields.Keys == p.Keys
       <==> ("$ref" in p ==> p.Keys == {"$ref"})
            && ("$ref" !in p && HasProperties(p) ==> "additionalProperties" in p && "required" in p)
  {
    if "$ref" !in p {
      var c := Children(p);
      assert Strict(Object(p)) == Object(RequireAll(c));
      assert HasProperties(p) <==> HasProperties(c);
      assert c.Keys == p.Keys;
    } else {
      assert Strict(Object(p)).fields.Keys == {"$ref"};
    }
  }
}
