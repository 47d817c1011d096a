/** Key casing between wire and SDK (packages/sdk-typescript/src/casing.ts): `toCamelKey`,
    `toSnakeKey` and the two recursive transforms, over every JSON document. */
module Casing {
  import opened Json

  // ---- keys -----------------------------------------------------------------------------

  predicate IsLower(c: char) { 'a' <= c <= 'z' }

  predicate IsUpper(c: char) { 'A' <= c <= 'Z' }

  function ToUpper(c: char): char
    requires IsLower(c)
  {
    (c as int - 32) as char
  }

  function ToLower(c: char): char
    requires IsUpper(c)
  {
    (c as int + 32) as char
  }

  /** Replace every `_x` by `X`, left to right. */
  function ToCamelKey(key: string): string {
    if key == "" then ""
    else if |key| >= 2 && key[0] == '_' && IsLower(key[1]) then [ToUpper(key[1])] + ToCamelKey(key[2..])
    else [key[0]] + ToCamelKey(key[1..])
  }

  /** Replace every `X` by `_x`. */
  function ToSnakeKey(key: string): string {
    if key == "" then ""
    else (if IsUpper(key[0]) then ['_', ToLower(key[0])] else [key[0]]) + ToSnakeKey(key[1..])
  }

  ghost predicate NoUpper(key: string) {
    forall i :: 0 <= i < |key| ==> !IsUpper(key[i])
  }

  lemma {:induction false} SnakeHasNoUpper(key: string)
    ensures NoUpper(ToSnakeKey(key))
  {
    if key != "" { SnakeHasNoUpper(key[1..]); }
  }

  lemma {:induction false} SnakeUndoesCamel(key: string)
    requires NoUpper(key)
    ensures ToSnakeKey(ToCamelKey(key)) == key
  {
    if key != "" {
      if |key| >= 2 && key[0] == '_' && IsLower(key[1]) {
        SnakeUndoesCamel(key[2..]);
        assert ToCamelKey(key)[1..] == ToCamelKey(key[2..]);
      } else {
        SnakeUndoesCamel(key[1..]);
        assert ToCamelKey(key)[1..] == ToCamelKey(key[1..]);
      }
    }
  }

  /** A key comes back exactly when it has no ASCII uppercase letter. */
  lemma KeyRoundTripsIff(key: string)
    ensures ToSnakeKey(ToCamelKey(key)) == key <==> NoUpper(key)
  {
    if NoUpper(key) { SnakeUndoesCamel(key); } else { SnakeHasNoUpper(ToCamelKey(key)); }
  }

  /** Renaming merges no two such keys. */
  lemma CamelIsInjective(a: string, b: string)
    requires NoUpper(a) && NoUpper(b) && ToCamelKey(a) == ToCamelKey(b)
    ensures a == b
  {
    SnakeUndoesCamel(a);
    SnakeUndoesCamel(b);
  }

  /** A camelized key never contains `_` followed by a lowercase letter. */
  lemma {:induction false} CamelHasNoSnake(key: string, i: nat)
    requires i + 1 < |ToCamelKey(key)|
    ensures !(ToCamelKey(key)[i] == '_' && IsLower(ToCamelKey(key)[i + 1]))
  {
    var r := ToCamelKey(key);
    if |key| >= 2 && key[0] == '_' && IsLower(key[1]) {
      if i > 0 { CamelHasNoSnake(key[2..], i - 1); }
    } else {
      if i > 0 { CamelHasNoSnake(key[1..], i - 1); }
      else if key[0] == '_' { assert r[1] == ToCamelKey(key[1..])[0]; }
    }
  }

  const PROTO := "__proto__"

  lemma CamelIsNeverProto(key: string)
    ensures ToCamelKey(key) != PROTO
  {
    assert PROTO[1] == '_' && PROTO[2] == 'p';
    if ToCamelKey(key) == PROTO { CamelHasNoSnake(key, 1); }
  }

  // ---- documents ------------------------------------------------------------------------

  const VERBATIM_VALUE_KEYS := {"headers", "input", "output", "input_schema", "inputSchema",
                                "output_schema", "outputSchema", "data", "metadata"}

  predicate Verbatim(key: string) {
    key in VERBATIM_VALUE_KEYS
  }

  /** The position of a field, or the end. */
  function IndexOf(entries: seq<Entry>, key: string): (i: nat)
    ensures i <= |entries| && (i < |entries| ==> entries[i].key == key)
    ensures forall k :: 0 <= k < i ==> entries[k].key != key
  {
    if entries == [] || entries[0].key == key then 0 else 1 + IndexOf(entries[1..], key)
  }

  /** `out[key] = value`: an existing field keeps its place; `__proto__` makes no field. */
  function Put(out: seq<Entry>, key: string, value: Json): seq<Entry> {
    if key == PROTO then out
    else
      var i := IndexOf(out, key);
      if i < |out| then out[i := Entry(key, value)] else out + [Entry(key, value)]
  }

  /** Assigning to `__proto__` makes no field; any other name is found again with its value. */
  lemma ProtoIsLost(out: seq<Entry>, key: string, value: Json)
    ensures Put(out, "__proto__", value) == out
    ensures key != "__proto__" ==> var r := Put(out, key, value);
      IndexOf(r, key) < |r| && r[IndexOf(r, key)].value == value && |out| <= |r| <= |out| + 1
  {
    if key != "__proto__" {
      var i, r := IndexOf(out, key), Put(out, key, value);
      assert r[i] == Entry(key, value) && forall j :: 0 <= j < i ==> r[j].key != key;
    }
  }

  function Camelize(v: Json): Json
    decreases v, 1
  {
    match v
    case Array(items) => Array(CamelizeItems(items))
    case Object(entries) => Object(CamelizeEntries(entries))
    case _ => v
  }

  function CamelizeItems(items: seq<Json>): (r: seq<Json>)
    ensures |r| == |items|
    ensures forall i :: 0 <= i < |items| ==> r[i] == Camelize(items[i])
    decreases items, 0
  {
    if items == [] then [] else CamelizeItems(items[..|items| - 1]) + [Camelize(items[|items| - 1])]
  }

  function CamelizeEntries(entries: seq<Entry>): seq<Entry>
    decreases entries, 0
  {
    if entries == [] then []
    else
      var last := entries[|entries| - 1];
      Put(CamelizeEntries(entries[..|entries| - 1]), ToCamelKey(last.key),
          if Verbatim(last.key) then last.value else Camelize(last.value))
  }

  function Decamelize(v: Json): Json
    decreases v, 1
  {
    match v
    case Array(items) => Array(DecamelizeItems(items))
    case Object(entries) => Object(DecamelizeEntries(entries))
    case _ => v
  }

  function DecamelizeItems(items: seq<Json>): (r: seq<Json>)
    ensures |r| == |items|
    ensures forall i :: 0 <= i < |items| ==> r[i] == Decamelize(items[i])
    decreases items, 0
  {
    if items == [] then [] else DecamelizeItems(items[..|items| - 1]) + [Decamelize(items[|items| - 1])]
  }

  function DecamelizeEntries(entries: seq<Entry>): seq<Entry>
    decreases entries, 0
  {
    if entries == [] then []
    else
      var last := entries[|entries| - 1];
      Put(DecamelizeEntries(entries[..|entries| - 1]), ToSnakeKey(last.key),
          if Verbatim(last.key) then last.value else Decamelize(last.value))
  }

  // ---- the transforms as they run -------------------------------------------------------

  /** `camelizeKeys`: recursion over values, a loop filling `out` over fields. */
  method CamelizeKeys(v: Json) returns (r: Json)
    ensures r == Camelize(v)
    decreases v
  {
    match v {
      case Array(items) =>
        var out: seq<Json> := [];
        for i := 0 to |items|
          invariant out == CamelizeItems(items[..i])
        {
          var item := CamelizeKeys(items[i]);
          assert items[..i + 1][..i] == items[..i];
          out := out + [item];
        }
        assert items[..|items|] == items;
        r := Array(out);
      case Object(entries) =>
        var out: seq<Entry> := [];
        for i := 0 to |entries|
          invariant out == CamelizeEntries(entries[..i])
        {
          var value := entries[i].value;
          if !Verbatim(entries[i].key) { value := CamelizeKeys(value); }
          assert entries[..i + 1][..i] == entries[..i];
          out := Put(out, ToCamelKey(entries[i].key), value);
        }
        assert entries[..|entries|] == entries;
        r := Object(out);
      case _ => r := v;
    }
  }

  method DecamelizeKeys(v: Json) returns (r: Json)
    ensures r == Decamelize(v)
    decreases v
  {
    match v {
      case Array(items) =>
        var out: seq<Json> := [];
        for i := 0 to |items|
          invariant out == DecamelizeItems(items[..i])
        {
          var item := DecamelizeKeys(items[i]);
          assert items[..i + 1][..i] == items[..i];
          out := out + [item];
        }
        assert items[..|items|] == items;
        r := Array(out);
      case Object(entries) =>
        var out: seq<Entry> := [];
        for i := 0 to |entries|
          invariant out == DecamelizeEntries(entries[..i])
        {
          var value := entries[i].value;
          if !Verbatim(entries[i].key) { value := DecamelizeKeys(value); }
          assert entries[..i + 1][..i] == entries[..i];
          out := Put(out, ToSnakeKey(entries[i].key), value);
        }
        assert entries[..|entries|] == entries;
        r := Object(out);
      case _ => r := v;
    }
  }

  // ---- the round trip -------------------------------------------------------------------

  /** Fields are distinct wherever the transform looks. */
  ghost predicate WellFormed(v: Json)
    decreases v
  {
    match v
    case Array(items) => forall i :: 0 <= i < |items| ==> WellFormed(items[i])
    case Object(entries) =>
      Distinct(entries) && forall i :: 0 <= i < |entries| && !Verbatim(entries[i].key) ==> WellFormed(entries[i].value)
    case _ => true
  }

  ghost predicate CleanKey(key: string) {
    NoUpper(key) && key != PROTO
  }

  /** Every key the transform renames is free of uppercase letters and is not `__proto__`. */
  ghost predicate Clean(v: Json)
    decreases v
  {
    match v
    case Array(items) => forall i :: 0 <= i < |items| ==> Clean(items[i])
    case Object(entries) =>
      forall i :: 0 <= i < |entries| ==>
        CleanKey(entries[i].key) && (!Verbatim(entries[i].key) ==> Clean(entries[i].value))
    case _ => true
  }

  ghost predicate CleanKeys(entries: seq<Entry>) {
    forall i :: 0 <= i < |entries| ==> CleanKey(entries[i].key)
  }

  function CamelEntry(e: Entry): Entry {
    Entry(ToCamelKey(e.key), if Verbatim(e.key) then e.value else Camelize(e.value))
  }

  function SnakeEntry(e: Entry): Entry {
    Entry(ToSnakeKey(e.key), if Verbatim(e.key) then e.value else Decamelize(e.value))
  }

  /** No two fields get the same name. */
  ghost predicate CamelApart(entries: seq<Entry>) {
    forall i, j :: 0 <= i < j < |entries| ==> ToCamelKey(entries[i].key) != ToCamelKey(entries[j].key)
  }

  ghost predicate SnakeApart(entries: seq<Entry>) {
    && (forall i, j :: 0 <= i < j < |entries| ==> ToSnakeKey(entries[i].key) != ToSnakeKey(entries[j].key))
    && (forall i :: 0 <= i < |entries| ==> ToSnakeKey(entries[i].key) != PROTO)
  }

  lemma CleanKeysStayApart(entries: seq<Entry>)
    requires Distinct(entries) && CleanKeys(entries)
    ensures CamelApart(entries)
  {
    hide ToCamelKey;
    forall i, j | 0 <= i < j < |entries| ensures ToCamelKey(entries[i].key) != ToCamelKey(entries[j].key) {
      if ToCamelKey(entries[i].key) == ToCamelKey(entries[j].key) { CamelIsInjective(entries[i].key, entries[j].key); }
    }
  }

  /** Where no two names merge, fields are renamed one by one, in place. */
  lemma {:induction false} CamelizeRenames(entries: seq<Entry>)
    requires CamelApart(entries)
    ensures var r := CamelizeEntries(entries);
            |r| == |entries| && forall i :: 0 <= i < |r| ==> r[i] == CamelEntry(entries[i])
  {
    hide ToCamelKey, Camelize, Verbatim;
    if entries != [] {
      var n := |entries| - 1;
      CamelizeRenames(entries[..n]);
      CamelIsNeverProto(entries[n].key);
      assert IndexOf(CamelizeEntries(entries[..n]), ToCamelKey(entries[n].key)) == n;
    }
  }

  lemma {:induction false} DecamelizeRenames(entries: seq<Entry>)
    requires SnakeApart(entries)
    ensures var r := DecamelizeEntries(entries);
            |r| == |entries| && forall i :: 0 <= i < |r| ==> r[i] == SnakeEntry(entries[i])
  {
    hide ToSnakeKey, Decamelize, Verbatim;
    if entries != [] {
      var n := |entries| - 1;
      DecamelizeRenames(entries[..n]);
      assert IndexOf(DecamelizeEntries(entries[..n]), ToSnakeKey(entries[n].key)) == n;
    }
  }

  lemma {:induction false} DecamelizedKeysAreClean(entries: seq<Entry>)
    ensures CleanKeys(DecamelizeEntries(entries))
  {
    if entries != [] {
      var last := entries[|entries| - 1];
      DecamelizedKeysAreClean(entries[..|entries| - 1]);
      SnakeHasNoUpper(last.key);
    }
  }

  /** Renaming, either way, keeps every key inside or outside the verbatim set. */
  lemma VerbatimSurvivesRenaming(key: string)
    ensures Verbatim(ToCamelKey(key)) <==> Verbatim(key)
    ensures Verbatim(ToSnakeKey(key)) <==> Verbatim(key)
  {
    hide ToSnakeKey, ToCamelKey, Verbatim;
    if Verbatim(key) { VerbatimRenamed(key); }
    if Verbatim(ToCamelKey(key)) { VerbatimFromCamel(key); }
    if Verbatim(ToSnakeKey(key)) { VerbatimFromSnake(key); }
  }

  /** At most one capital and at most one underscore. */
  ghost predicate OneWord(s: string) {
    && (forall i, j :: 0 <= i < j < |s| && IsUpper(s[i]) ==> !IsUpper(s[j]))
    && (forall i, j :: 0 <= i < j < |s| && s[i] == '_' ==> s[j] != '_')
  }

  lemma VerbatimIsOneWord(key: string)
    requires Verbatim(key)
    ensures OneWord(key)
  {
    var p := if key == "input_schema" || key == "inputSchema" then 5 else 6;
    assert forall i :: 0 <= i < |key| && i != p ==> !IsUpper(key[i]) && key[i] != '_';
  }

  lemma VerbatimFromCamel(key: string)
    requires Verbatim(ToCamelKey(key))
    ensures Verbatim(key)
  {
    hide ToSnakeKey, ToCamelKey, Verbatim;
    VerbatimIsOneWord(ToCamelKey(key));
    VerbatimRenamed(ToCamelKey(key));
    if NoUpper(key) { SnakeUndoesCamel(key); } else if ToCamelKey(key) != key { CamelAddsUpper(key); }
  }

  lemma VerbatimFromSnake(key: string)
    requires Verbatim(ToSnakeKey(key))
    ensures Verbatim(key)
  {
    hide ToSnakeKey, ToCamelKey, Verbatim;
    VerbatimIsOneWord(ToSnakeKey(key));
    VerbatimRenamed(ToSnakeKey(key));
    assert key + "" == key;
    EmptyKey();
    if NoUpper(key) { SnakeKeeps(key, ""); }
    else if '_' in key { SnakeAddsUnderscore(key); }
    else { CamelUndoesSnake(key); }
  }

  lemma {:induction false} CamelKeepsUpper(key: string)
    requires !NoUpper(key) || ToCamelKey(key) != key
    ensures !NoUpper(ToCamelKey(key))
  {
    var r := ToCamelKey(key);
    if |key| >= 2 && key[0] == '_' && IsLower(key[1]) {
      assert IsUpper(r[0]);
    } else if key != "" && !IsUpper(key[0]) {
      assert key == [key[0]] + key[1..];
      CamelKeepsUpper(key[1..]);
      var i :| 0 <= i < |r[1..]| && IsUpper(r[1..][i]);
      assert IsUpper(r[i + 1]);
    } else {
      assert IsUpper(r[0]);
    }
  }

  /** A key with a capital that renaming changes comes out with two. */
  lemma {:induction false} CamelAddsUpper(key: string)
    requires !NoUpper(key) && ToCamelKey(key) != key
    ensures !OneWord(ToCamelKey(key))
  {
    var r := ToCamelKey(key);
    if |key| >= 2 && key[0] == '_' && IsLower(key[1]) {
      assert r[1..] == ToCamelKey(key[2..]);
      assert !NoUpper(key[2..]) by { assert key == key[..2] + key[2..]; }
      CamelKeepsUpper(key[2..]);
      var i :| 0 <= i < |r[1..]| && IsUpper(r[1..][i]);
      assert IsUpper(r[0]) && IsUpper(r[i + 1]);
    } else {
      assert key == [key[0]] + key[1..] && r[1..] == ToCamelKey(key[1..]);
      if IsUpper(key[0]) {
        CamelKeepsUpper(key[1..]);
        var i :| 0 <= i < |r[1..]| && IsUpper(r[1..][i]);
        assert IsUpper(r[0]) && IsUpper(r[i + 1]);
      } else {
        CamelAddsUpper(key[1..]);
        if OneWord(r) { OneWordTail(r); }
      }
    }
  }

  lemma OneWordTail(s: string)
    requires s != "" && OneWord(s)
    ensures OneWord(s[1..])
  {
    assert forall i :: 0 <= i < |s[1..]| ==> s[1..][i] == s[i + 1];
  }

  lemma {:induction false} SnakeKeepsUnderscore(key: string)
    requires '_' in key || !NoUpper(key)
    ensures '_' in ToSnakeKey(key)
  {
    if key[0] != '_' && !IsUpper(key[0]) { SnakeKeepsUnderscore(key[1..]); }
  }

  /** A key with a capital and an underscore comes out with two underscores. */
  lemma {:induction false} SnakeAddsUnderscore(key: string)
    requires '_' in key && !NoUpper(key)
    ensures !OneWord(ToSnakeKey(key))
  {
    var r := ToSnakeKey(key);
    var skip := if IsUpper(key[0]) then 2 else 1;
    assert r[skip..] == ToSnakeKey(key[1..]);
    if IsUpper(key[0]) || key[0] == '_' {
      SnakeKeepsUnderscore(key[1..]);
      var i :| 0 <= i < |r[skip..]| && r[skip..][i] == '_';
      assert r[0] == '_' && r[skip + i] == '_';
    } else {
      SnakeAddsUnderscore(key[1..]);
      if OneWord(r) { OneWordTail(r); }
    }
  }

  lemma {:induction false} CamelUndoesSnake(key: string)
    requires '_' !in key
    ensures ToCamelKey(ToSnakeKey(key)) == key
  {
    if key != "" {
      CamelUndoesSnake(key[1..]);
      var r := ToSnakeKey(key);
      assert key == [key[0]] + key[1..];
      if IsUpper(key[0]) { assert r[2..] == ToSnakeKey(key[1..]); } else { assert r[1..] == ToSnakeKey(key[1..]); }
    }
  }

  lemma {:induction false} SnakeKeeps(a: string, b: string)
    requires NoUpper(a)
    ensures ToSnakeKey(a + b) == a + ToSnakeKey(b)
  {
    if a == "" { assert a + b == b; } else {
      SnakeKeeps(a[1..], b);
      assert (a + b)[1..] == a[1..] + b;
    }
  }

  lemma {:induction false} CamelKeeps(a: string, b: string)
    requires '_' !in a
    ensures ToCamelKey(a + b) == a + ToCamelKey(b)
  {
    if a == "" { assert a + b == b; } else {
      CamelKeeps(a[1..], b);
      assert (a + b)[1..] == a[1..] + b;
    }
  }

  lemma VerbatimRenamed(key: string)
    requires Verbatim(key)
    ensures Verbatim(ToSnakeKey(key)) && Verbatim(ToCamelKey(key))
  {
    hide ToSnakeKey, ToCamelKey;
    assert "input" + "Schema" == "inputSchema" && "input" + "_schema" == "input_schema";
    assert "output" + "Schema" == "outputSchema" && "output" + "_schema" == "output_schema";
    SchemaKeys("input");
    SchemaKeys("output");
    EmptyKey();
    assert key + "" == key;
    if key != "inputSchema" && key != "outputSchema" { SnakeKeeps(key, ""); }
    if key != "input_schema" && key != "output_schema" { CamelKeeps(key, ""); }
  }

  lemma EmptyKey()
    ensures ToSnakeKey("") == "" && ToCamelKey("") == ""
  {
  }

  lemma SchemaKeys(stem: string)
    requires NoUpper(stem) && '_' !in stem
    ensures ToSnakeKey(stem + "Schema") == stem + "_schema" && ToCamelKey(stem + "_schema") == stem + "Schema"
  {
    SnakeKeeps(stem, "Schema");
    CamelKeeps(stem, "_schema");
    SchemaSnake();
    SchemaCamel();
  }

  lemma SchemaSnake()
    ensures ToSnakeKey("Schema") == "_schema"
  {
    SnakeKeeps("chema", "");
    assert "Schema"[1..] == "chema" == "chema" + "";
    assert ToLower('S') == 's';
    assert ['_', 's'] + "chema" == "_schema";
  }

  lemma SchemaCamel()
    ensures ToCamelKey("_schema") == "Schema"
  {
    CamelKeeps("chema", "");
    assert "_schema"[2..] == "chema" == "chema" + "";
    assert ToUpper('s') == 'S';
    assert ['S'] + "chema" == "Schema";
  }

  /** One object level: with clean distinct keys the fields come back in order under their own
      names, verbatim values as they were and the others round-tripped. */
  lemma EntriesRoundTrip(entries: seq<Entry>)
    requires Distinct(entries) && CleanKeys(entries)
    ensures var r := DecamelizeEntries(CamelizeEntries(entries));
            |r| == |entries| && forall i :: 0 <= i < |r| ==>
              r[i] == Entry(entries[i].key, if Verbatim(entries[i].key) then entries[i].value
                                            else Decamelize(Camelize(entries[i].value)))
  {
    CleanKeysStayApart(entries);
    CamelizeRenames(entries);
    var c := CamelizeEntries(entries);
    forall i | 0 <= i < |entries| ensures ToSnakeKey(c[i].key) == entries[i].key && (Verbatim(c[i].key) <==> Verbatim(entries[i].key)) {
      SnakeUndoesCamel(entries[i].key);
      VerbatimSurvivesRenaming(entries[i].key);
    }
    DecamelizeRenames(c);
  }

  /** The round trip `decamelizeKeys(camelizeKeys(v)) = v` holds, field order included, exactly
      for the documents whose renamed keys have no uppercase letter and are not `__proto__`. */
  lemma {:induction false} RoundTripIff(v: Json)
    requires WellFormed(v)
    ensures Decamelize(Camelize(v)) == v <==> Clean(v)
    decreases v
  {
    match v
    case Array(items) =>
      var r := DecamelizeItems(CamelizeItems(items));
      forall i | 0 <= i < |items| ensures r[i] == items[i] <==> Clean(items[i]) { RoundTripIff(items[i]); }
      assert r == items <==> forall i :: 0 <= i < |items| ==> r[i] == items[i];
    case Object(entries) =>
      var r := DecamelizeEntries(CamelizeEntries(entries));
      DecamelizedKeysAreClean(CamelizeEntries(entries));
      assert r == entries ==> CleanKeys(entries);
      if CleanKeys(entries) {
        EntriesRoundTrip(entries);
        forall i | 0 <= i < |entries| && !Verbatim(entries[i].key)
          ensures Decamelize(Camelize(entries[i].value)) == entries[i].value <==> Clean(entries[i].value)
        {
          RoundTripIff(entries[i].value);
        }
        assert r == entries <==> forall i :: 0 <= i < |entries| ==> r[i] == entries[i];
      }
    case _ =>
  }

  // ---- verbatim values ------------------------------------------------------------------

  datatype Step = Field(key: string) | Item(index: nat)

  /** Whether `x` stands at `path`, a way through renamed fields and items ending in a field
      whose value is verbatim. */
  ghost predicate VerbatimAt(v: Json, path: seq<Step>, x: Json)
    decreases |path|, 1
  {
    && path != []
    && match path[0]
       case Item(i) => v.Array? && i < |v.items| && VerbatimAt(v.items[i], path[1..], x)
       case Field(k) =>
         v.Object? && exists i :: 0 <= i < |v.entries| && v.entries[i].key == k && VerbatimFrom(v.entries[i], path, x)
  }

  ghost predicate VerbatimFrom(e: Entry, path: seq<Step>, x: Json)
    requires path != []
    decreases |path|, 0
  {
    if |path| == 1 then Verbatim(e.key) && e.value == x
    else !Verbatim(e.key) && VerbatimAt(e.value, path[1..], x)
  }

  datatype Casing = Camel | Snake

  function Rename(casing: Casing, key: string): string {
    if casing.Camel? then ToCamelKey(key) else ToSnakeKey(key)
  }

  function RenamedPath(casing: Casing, path: seq<Step>): (r: seq<Step>)
    ensures |r| == |path|
  {
    if path == [] then []
    else [if path[0].Field? then Field(Rename(casing, path[0].key)) else path[0]] + RenamedPath(casing, path[1..])
  }

  function Transform(casing: Casing, v: Json): Json {
    if casing.Camel? then Camelize(v) else Decamelize(v)
  }

  /** Wherever the transform looks, no two fields get the same name. */
  ghost predicate StaysApart(casing: Casing, v: Json)
    decreases v
  {
    match v
    case Array(items) => forall i :: 0 <= i < |items| ==> StaysApart(casing, items[i])
    case Object(entries) =>
      && (if casing.Camel? then CamelApart(entries) else SnakeApart(entries))
      && forall i :: 0 <= i < |entries| && !Verbatim(entries[i].key) ==> StaysApart(casing, entries[i].value)
    case _ => true
  }

  function RenamedEntry(casing: Casing, e: Entry): Entry {
    Entry(Rename(casing, e.key), if Verbatim(e.key) then e.value else Transform(casing, e.value))
  }

  lemma FieldIsRenamed(casing: Casing, v: Json, i: nat)
    requires v.Object? && i < |v.entries| && (if casing.Camel? then CamelApart(v.entries) else SnakeApart(v.entries))
    ensures var r := Transform(casing, v);
      r.Object? && |r.entries| == |v.entries| && r.entries[i] == RenamedEntry(casing, v.entries[i])
  {
    hide ToCamelKey, ToSnakeKey, CamelApart, SnakeApart, CamelizeEntries, DecamelizeEntries;
    if casing.Camel? { CamelizeRenames(v.entries); } else { DecamelizeRenames(v.entries); }
  }

  lemma ItemIsTransformed(casing: Casing, v: Json, i: nat)
    requires v.Array? && i < |v.items|
    ensures var r := Transform(casing, v);
      r.Array? && |r.items| == |v.items| && r.items[i] == Transform(casing, v.items[i])
  {
  }

  /** A value under a verbatim key comes through both transforms untouched, at any depth, in every
      document in which the transform merges no two fields. */
  lemma {:induction false} VerbatimIsUntouched(casing: Casing, v: Json, path: seq<Step>, x: Json)
    requires StaysApart(casing, v) && VerbatimAt(v, path, x)
    ensures VerbatimAt(Transform(casing, v), RenamedPath(casing, path), x)
    decreases |path|
  {
    hide Transform, Rename, CamelApart, SnakeApart;
    var renamed := RenamedPath(casing, path);
    assert renamed[1..] == RenamedPath(casing, path[1..]);
    match path[0]
    case Item(i) =>
      VerbatimIsUntouched(casing, v.items[i], path[1..], x);
      ItemIsTransformed(casing, v, i);
    case Field(k) =>
      var i :| 0 <= i < |v.entries| && v.entries[i].key == k && VerbatimFrom(v.entries[i], path, x);
      FieldIsRenamed(casing, v, i);
      RenamedVerbatim(casing, k);
      if |path| > 1 { VerbatimIsUntouched(casing, v.entries[i].value, path[1..], x); }
      assert VerbatimFrom(RenamedEntry(casing, v.entries[i]), renamed, x);
  }

  lemma RenamedVerbatim(casing: Casing, key: string)
    ensures Verbatim(Rename(casing, key)) <==> Verbatim(key)
  {
    VerbatimSurvivesRenaming(key);
  }

  /** Clean documents merge nothing, so all of this holds of them. */
  lemma {:induction false} CleanStaysApart(v: Json)
    requires WellFormed(v) && Clean(v)
    ensures StaysApart(Camel, v)
    decreases v
  {
    match v
    case Array(items) =>
      forall i | 0 <= i < |items| ensures StaysApart(Camel, items[i]) { CleanStaysApart(items[i]); }
    case Object(entries) =>
      CleanKeysStayApart(entries);
      forall i | 0 <= i < |entries| && !Verbatim(entries[i].key) ensures StaysApart(Camel, entries[i].value) {
        CleanStaysApart(entries[i].value);
      }
    case _ =>
  }

  /** The nine fields by name: each keeps its value whatever it holds, under its name in the other
      casing; every other field's value is transformed. */
  lemma NamedFieldsAreVerbatim(casing: Casing, v: Json, i: nat)
    requires v.Object? && i < |v.entries| && (if casing.Camel? then CamelApart(v.entries) else SnakeApart(v.entries))
    ensures var e := v.entries[i];
            var r := Transform(casing, v);
      && r.Object? && |r.entries| == |v.entries|
      && (e.key in {"headers", "input", "output", "data", "metadata"} ==> r.entries[i] == e)
      && (e.key in {"input_schema", "inputSchema"} ==>
            r.entries[i] == Entry(if casing.Camel? then "inputSchema" else "input_schema", e.value))
      && (e.key in {"output_schema", "outputSchema"} ==>
            r.entries[i] == Entry(if casing.Camel? then "outputSchema" else "output_schema", e.value))
      && (e.key !in {"headers", "input", "output", "data", "metadata", "input_schema", "inputSchema", "output_schema", "outputSchema"} ==>
            r.entries[i].value == Transform(casing, e.value))
  {
    hide ToCamelKey, ToSnakeKey, CamelApart, SnakeApart, Transform;
    FieldIsRenamed(casing, v, i);
    var key := v.entries[i].key;
    if key in {"headers", "input", "output", "data", "metadata"} { PlainName(casing, key); }
    SchemaNames(casing);
  }

  lemma PlainName(casing: Casing, key: string)
    requires key in {"headers", "input", "output", "data", "metadata"}
    ensures Rename(casing, key) == key
  {
    hide ToCamelKey, ToSnakeKey;
    assert key + "" == key;
    EmptyKey();
    SnakeKeeps(key, "");
    CamelKeeps(key, "");
  }

  lemma SchemaNames(casing: Casing)
    ensures Rename(casing, "input_schema") == Rename(casing, "inputSchema") == if casing.Camel? then "inputSchema" else "input_schema"
    ensures Rename(casing, "output_schema") == Rename(casing, "outputSchema") == if casing.Camel? then "outputSchema" else "output_schema"
  {
    hide ToCamelKey, ToSnakeKey;
    EmptyKey();
    assert "input" + "Schema" == "inputSchema" && "input" + "_schema" == "input_schema";
    assert "output" + "Schema" == "outputSchema" && "output" + "_schema" == "output_schema";
    SchemaKeys("input");
    SchemaKeys("output");
    assert "input_schema" + "" == "input_schema" && "output_schema" + "" == "output_schema";
    SnakeKeeps("input_schema", "");
    SnakeKeeps("output_schema", "");
    assert "inputSchema" + "" == "inputSchema" && "outputSchema" + "" == "outputSchema";
    CamelKeeps("inputSchema", "");
    CamelKeeps("outputSchema", "");
  }
}
