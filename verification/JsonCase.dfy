/** The snake-case to camel-case rewrite of JSON trees (src/ga_client.rs). */
module JsonCase {
  import opened Basics

  /** A JSON value. An object is a key-ordered map, a number the text it is written as. */
  datatype Json =
    | Null
    | Bool(b: bool)
    | Num(text: string)
    | Str(s: string)
    | Arr(items: seq<Json>)
    | Obj(fields: map<string, Json>)

  // ---------- keys ----------

  function Camel(key: string, uppercaseNext: bool): string {
    if key == "" then ""
    else if key[0] == '_' then Camel(key[1..], true)
    else [if uppercaseNext then Upper(key[0]) else key[0]] + Camel(key[1..], false)
  }

  function CamelKey(key: string): string { Camel(key, false) }

  lemma {:induction false} CamelHasNoUnderscore(key: string, uppercaseNext: bool)
    ensures '_' !in Camel(key, uppercaseNext)
  {
    if key != "" { CamelHasNoUnderscore(key[1..], key[0] == '_'); }
  }

  lemma {:induction false} NoUnderscoreKept(key: string)
    requires '_' !in key
    ensures CamelKey(key) == key
  {
    if key != "" { NoUnderscoreKept(key[1..]); }
  }

  /** Two words joined by an underscore: the second one's first letter in upper case, the underscore gone. */
  lemma {:induction false} TwoWords(a: string, c: char, b: string)
    requires '_' !in a && c != '_'
    ensures CamelKey(a + "_" + [c] + b) == a + [Upper(c)] + CamelKey(b)
  {
    var key := a + "_" + [c] + b;
    if a == "" {
      var rest := [c] + b;
      assert key[0] == '_' && key[1..] == rest && rest[0] == c && rest[1..] == b;
      assert Camel(rest, true) == [Upper(c)] + Camel(b, false);
    } else {
      assert a[0] in a && key[1..] == a[1..] + "_" + [c] + b;
      TwoWords(a[1..], c, b);
      assert a == [a[0]] + a[1..];
    }
  }

  lemma CamelOfNothing(uppercaseNext: bool)
    ensures Camel("", uppercaseNext) == ""
  {}

  /** One character of the buffer loop. */
  lemma CamelTurn(out: string, key: string, i: nat, uppercaseNext: bool)
    requires i < |key| && out + Camel(key[i..], uppercaseNext) == CamelKey(key)
    ensures key[i] == '_' ==> out + Camel(key[i + 1..], true) == CamelKey(key)
    ensures key[i] != '_' ==>
              out + [if uppercaseNext then Upper(key[i]) else key[i]] + Camel(key[i + 1..], false) == CamelKey(key)
  {
    hide CamelKey;
    assert key[i..][1..] == key[i + 1..];
  }

  method SnakeKeyToCamel(key: string) returns (out: string)
    ensures out == CamelKey(key)
    ensures '_' !in out
    ensures out == key <==> '_' !in key
  {
    hide Camel;
    CamelHasNoUnderscore(key, false);
    if '_' !in key {
      NoUnderscoreKept(key);
      return key;
    }
    out := "";
    var uppercaseNext := false;
    var i := 0;
    assert key[0..] == key && out + Camel(key, false) == Camel(key, false);
    while i < |key|
      invariant 0 <= i <= |key|
      invariant out + Camel(key[i..], uppercaseNext) == CamelKey(key)
    {
      var ch := key[i];
      CamelTurn(out, key, i, uppercaseNext);
      i := i + 1;
      if ch == '_' {
        uppercaseNext := true;
        continue;
      }
      if uppercaseNext {
        out := out + [Upper(ch)];
        uppercaseNext := false;
      } else {
        out := out + [ch];
      }
    }
    CamelOfNothing(uppercaseNext);
    assert key[|key|..] == "" && out + "" == out;
  }

  // ---------- the key order of an object ----------

  /** Byte order of keys. */
  predicate Below(a: string, b: string) {
    a == "" || (b != "" && (a[0] < b[0] || (a[0] == b[0] && Below(a[1..], b[1..]))))
  }

  lemma {:induction false} BelowIsTotal(a: string, b: string)
    ensures Below(a, b) || Below(b, a)
  {
    if a != "" && b != "" { BelowIsTotal(a[1..], b[1..]); }
  }

  lemma {:induction false} BelowIsTransitive(a: string, b: string, c: string)
    requires Below(a, b) && Below(b, c)
    ensures Below(a, c)
  {
    if a != "" && a[0] == b[0] == c[0] { BelowIsTransitive(a[1..], b[1..], c[1..]); }
  }

  ghost predicate Greatest(g: string, s: set<string>) { g in s && forall x | x in s :: Below(x, g) }

  lemma {:induction false} HasGreatest(s: set<string>)
    requires s != {}
    ensures exists g :: Greatest(g, s)
  {
    var x :| x in s;
    BelowIsTotal(x, x);
    var rest := s - {x};
    if rest == {} {
      assert s == {x};
      assert Greatest(x, s);
    } else {
      HasGreatest(rest);
      var g :| Greatest(g, rest);
      BelowIsTotal(x, g);
      if Below(x, g) {
        assert Greatest(g, s);
      } else {
        forall y | y in s ensures Below(y, x) {
          if y != x { BelowIsTransitive(y, g, x); }
        }
        assert Greatest(x, s);
      }
    }
  }

  // ---------- trees ----------

  /** The keys of an object that are rewritten to `c`. */
  function Sources(fields: map<string, Json>, c: string): set<string> {
    set k | k in fields && CamelKey(k) == c
  }

  function CamelKeys(fields: map<string, Json>): set<string> { set k | k in fields :: CamelKey(k) }

  /** Of the keys rewritten to `c` the last one in key order, whose value is the one that stays. */
  ghost function Winner(fields: map<string, Json>, c: string): (k: string)
    requires c in CamelKeys(fields)
    ensures k in fields && CamelKey(k) == c && Greatest(k, Sources(fields, c))
  {
    assert Sources(fields, c) != {} by {
      var j :| j in fields && CamelKey(j) == c;
      assert j in Sources(fields, c);
    }
    HasGreatest(Sources(fields, c));
    var k :| Greatest(k, Sources(fields, c));
    k
  }

  ghost function ToCamel(v: Json): Json {
    match v
    case Arr(items) => Arr(seq(|items|, i requires 0 <= i < |items| => ToCamel(items[i])))
    case Obj(fields) => Obj(map c | c in CamelKeys(fields) :: ToCamel(fields[Winner(fields, c)]))
    case _ => v
  }

  /** No key of the tree has an underscore. */
  ghost predicate Plain(v: Json) {
    match v
    case Arr(items) => forall i | 0 <= i < |items| :: Plain(items[i])
    case Obj(fields) => forall k | k in fields :: '_' !in k && Plain(fields[k])
    case _ => true
  }

  lemma {:induction false} ToCamelIsPlain(v: Json)
    ensures Plain(ToCamel(v))
  {
    match v
    case Arr(items) =>
      forall i | 0 <= i < |items| ensures Plain(ToCamel(items[i])) { ToCamelIsPlain(items[i]); }
    case Obj(fields) =>
      forall c | c in CamelKeys(fields) ensures '_' !in c && Plain(ToCamel(fields[Winner(fields, c)])) {
        CamelHasNoUnderscore(Winner(fields, c), false);
        ToCamelIsPlain(fields[Winner(fields, c)]);
      }
    case _ =>
  }

  lemma {:induction false} PlainIsKept(v: Json)
    requires Plain(v)
    ensures ToCamel(v) == v
  {
    match v
    case Arr(items) =>
      forall i | 0 <= i < |items| ensures ToCamel(items[i]) == items[i] { PlainIsKept(items[i]); }
    case Obj(fields) =>
      forall k | k in fields ensures CamelKey(k) == k { NoUnderscoreKept(k); }
      assert CamelKeys(fields) == fields.Keys;
      forall k | k in fields ensures ToCamel(fields[Winner(fields, k)]) == fields[k] { PlainIsKept(fields[k]); }
    case _ =>
  }

  /** The trees the rewrite leaves alone are exactly those without an underscore in a key. */
  lemma FixedIffPlain(v: Json)
    ensures ToCamel(v) == v <==> Plain(v)
  {
    if Plain(v) { PlainIsKept(v); }
    ToCamelIsPlain(v);
  }

  lemma ToCamelIdempotent(v: Json)
    ensures ToCamel(ToCamel(v)) == ToCamel(v)
  {
    ToCamelIsPlain(v);
    PlainIsKept(ToCamel(v));
  }

  // ---------- objects with known keys ----------

  /** No two of the keys are rewritten to the same one. */
  ghost predicate Apart(keys: set<string>) { forall j, k | j in keys && k in keys && CamelKey(j) == CamelKey(k) :: j == k }

  /** Lower-case letters and single underscores, none at the end. */
  predicate Snake(s: string) {
    && (forall i | 0 <= i < |s| :: 'a' <= s[i] <= 'z' || s[i] == '_')
    && (forall i, j | 0 <= i && j == i + 1 < |s| && s[i] == '_' :: s[j] != '_')
    && (s != "" ==> s[|s| - 1] != '_')
  }

  predicate LetterNext(s: string, uppercaseNext: bool) { uppercaseNext ==> s != "" && s[0] != '_' }

  /** On snake-case keys the rewrite loses nothing. */
  lemma {:induction false} SnakeInjective(a: string, b: string, uppercaseNext: bool)
    requires Snake(a) && Snake(b) && LetterNext(a, uppercaseNext) && LetterNext(b, uppercaseNext)
    requires Camel(a, uppercaseNext) == Camel(b, uppercaseNext)
    ensures a == b
  {
    if a != "" && b != "" {
      var c, d := Camel(a, uppercaseNext), Camel(b, uppercaseNext);
      if a[0] == '_' && b[0] == '_' {
        SnakeInjective(a[1..], b[1..], true);
      } else {
        assert c[0] == d[0];
        assert c[1..] == d[1..];
        assert a[0] == b[0];
        SnakeInjective(a[1..], b[1..], false);
      }
    }
  }

  lemma SnakesApart(keys: set<string>)
    requires forall k | k in keys :: Snake(k)
    ensures Apart(keys)
  {
    forall j, k | j in keys && k in keys && CamelKey(j) == CamelKey(k) ensures j == k { SnakeInjective(j, k, false); }
  }

  ghost predicate Agree(f: map<string, Json>, g: map<string, Json>) {
    f.Keys == g.Keys && forall k | k in f :: ToCamel(f[k]) == ToCamel(g[k])
  }

  ghost function CamelFields(fields: map<string, Json>): map<string, Json> { ToCamel(Obj(fields)).fields }

  lemma FieldsAreRewritten(fields: map<string, Json>)
    requires Apart(fields.Keys)
    ensures CamelFields(fields).Keys == CamelKeys(fields)
    ensures forall k | k in fields :: CamelKey(k) in CamelFields(fields) && CamelFields(fields)[CamelKey(k)] == ToCamel(fields[k])
  {
    hide CamelKey;
  }

  lemma OnlyAgree(f: map<string, Json>, g: map<string, Json>)
    requires Apart(f.Keys + g.Keys) && CamelFields(f) == CamelFields(g)
    ensures f.Keys <= g.Keys && forall k | k in f :: ToCamel(f[k]) == ToCamel(g[k])
  {
    hide CamelKey, ToCamel, CamelFields;
    FieldsAreRewritten(f);
    FieldsAreRewritten(g);
    forall k | k in f ensures k in g && ToCamel(f[k]) == ToCamel(g[k]) {
      assert CamelKey(k) in CamelFields(g).Keys;
      var j :| j in g && CamelKey(j) == CamelKey(k);
    }
  }

  lemma AgreeOnly(f: map<string, Json>, g: map<string, Json>)
    requires Apart(f.Keys) && Agree(f, g)
    ensures CamelFields(f) == CamelFields(g)
  {
    hide CamelKey, ToCamel, CamelFields;
    FieldsAreRewritten(f);
    FieldsAreRewritten(g);
    assert CamelKeys(f) == CamelKeys(g);
    forall c | c in CamelFields(f) ensures CamelFields(f)[c] == CamelFields(g)[c] {
      var k :| k in f && CamelKey(k) == c;
    }
  }

  /** Objects whose keys stay apart are rewritten alike exactly when they agree field by field. */
  lemma RewrittenAgree(f: map<string, Json>, g: map<string, Json>)
    requires Apart(f.Keys + g.Keys)
    ensures ToCamel(Obj(f)) == ToCamel(Obj(g)) <==> Agree(f, g)
  {
    hide CamelKey;
    if CamelFields(f) == CamelFields(g) {
      OnlyAgree(f, g);
      OnlyAgree(g, f);
    }
    if Agree(f, g) { AgreeOnly(f, g); }
  }

  /** Fields whose values the rewrite leaves alone stay told apart. */
  lemma PlainFieldsAgree(f: map<string, Json>, g: map<string, Json>)
    requires forall k | k in f.Keys + g.Keys :: Snake(k)
    requires (forall k | k in f :: Plain(f[k])) && forall k | k in g :: Plain(g[k])
    ensures ToCamel(Obj(f)) == ToCamel(Obj(g)) <==> f == g
  {
    hide Snake, ToCamel, Plain;
    SnakesApart(f.Keys + g.Keys);
    RewrittenAgree(f, g);
    forall k | k in f ensures ToCamel(f[k]) == f[k] { PlainIsKept(f[k]); }
    forall k | k in g ensures ToCamel(g[k]) == g[k] { PlainIsKept(g[k]); }
  }

  /** One more field under a key of its own. */
  lemma RewrittenPut(f: map<string, Json>, g: map<string, Json>, k: string, v: Json)
    requires ToCamel(Obj(f)) == Obj(g) && k !in f && Snake(k) && forall j | j in f :: Snake(j)
    ensures ToCamel(Obj(f[k := v])) == Obj(g[CamelKey(k) := ToCamel(v)])
  {
    hide Snake, ToCamel, CamelKey, CamelFields;
    var h := f[k := v];
    SnakesApart(h.Keys);
    SnakesApart(f.Keys);
    FieldsAreRewritten(f);
    FieldsAreRewritten(h);
    CamelFieldsAre(f);
    CamelFieldsAre(h);
    hide Apart;
    assert CamelKeys(h) == CamelKeys(f) + {CamelKey(k)};
    forall c | c in CamelKeys(f) ensures CamelFields(h)[c] == g[CamelKey(k) := ToCamel(v)][c] {
      var j :| j in f && CamelKey(j) == c;
      assert h[j] == f[j];
    }
    assert CamelFields(h) == g[CamelKey(k) := ToCamel(v)];
  }

  lemma CamelFieldsAre(fields: map<string, Json>)
    ensures ToCamel(Obj(fields)) == Obj(CamelFields(fields))
  {}

  lemma NoFields()
    ensures ToCamel(Obj(map[])) == Obj(map[])
  {
    assert CamelKeys(map[]) == {};
  }

  lemma TwoKeys()
    ensures CamelKey("aB") == CamelKey("a_b") == "aB" && !Below("a_b", "aB")
  {
    assert Camel("aB", false) == "aB" && Camel("a_b", false) == "aB";
    assert "a_b"[1..] == "_b" && "aB"[1..] == "B";
  }

  /** Two keys that are rewritten to one: the value of the later key, here the one with the underscore, stays. */
  lemma LaterKeyWins(x: Json, y: Json)
    ensures ToCamel(Obj(map["aB" := x, "a_b" := y])) == Obj(map["aB" := ToCamel(y)])
  {
    hide CamelKey, Below;
    var fields := map["aB" := x, "a_b" := y];
    TwoKeys();
    assert fields.Keys == {"aB", "a_b"};
    assert "a_b" in Sources(fields, "aB") && CamelKeys(fields) == {"aB"};
    assert Winner(fields, "aB") == "a_b";
    assert fields["a_b"] == y;
  }
}
