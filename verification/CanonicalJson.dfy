/** The canonical form behind the contract hash (packages/actors-workspace/deploy/bundle.ts):
    `canonicalJson` sorts the fields of every object by UTF-16 code units and rebuilds it with
    `Object.fromEntries`, which enumerates array-index names first, in numeric order. */
module CanonicalJson {
  import opened Json
  import opened Digits
  import opened Strings

  // ---- comparing field names ------------------------------------------------------------

  /** The UTF-16 code units of a string, which is what JavaScript's `<` compares. */
  function Units(s: string): seq<int> {
    if s == "" then []
    else
      var c := s[0] as int;
      (if c < 0x10000 then [c] else [0xD800 + (c - 0x10000) / 1024, 0xDC00 + (c - 0x10000) % 1024]) + Units(s[1..])
  }

  predicate TextLess(a: string, b: string) {
    Less(Units(a), Units(b))
  }

  /** A name JavaScript enumerates as an array index. */
  predicate IsIndex(key: string) {
    key != "" && AllDigits(key) && (key[0] == '0' ==> |key| == 1) && Decimal(key) < 0xFFFF_FFFF
  }

  /** The order in which the fields of the rebuilt object come out. */
  predicate Before(a: string, b: string) {
    if IsIndex(a) then !IsIndex(b) || Decimal(a) < Decimal(b)
    else !IsIndex(b) && TextLess(a, b)
  }

  lemma {:induction false} UnitsAreInjective(a: string, b: string)
    requires Units(a) == Units(b)
    ensures a == b
  {
    if a != "" && b != "" {
      var c, d := a[0] as int, b[0] as int;
      var u := Units(a);
      assert c < 0x10000 <==> !(0xD800 <= u[0] < 0xDC00);
      assert d < 0x10000 <==> !(0xD800 <= u[0] < 0xDC00);
      if c >= 0x10000 {
        assert u[1] == 0xDC00 + (c - 0x10000) % 1024 == 0xDC00 + (d - 0x10000) % 1024;
        assert Units(a)[2..] == Units(a[1..]) && Units(b)[2..] == Units(b[1..]);
      } else {
        assert Units(a)[1..] == Units(a[1..]) && Units(b)[1..] == Units(b[1..]);
      }
      UnitsAreInjective(a[1..], b[1..]);
      assert a == [a[0]] + a[1..] && b == [b[0]] + b[1..];
    }
  }

  ghost predicate CanonicalDigits(s: string) {
    s != "" && AllDigits(s) && (s[0] == '0' ==> |s| == 1)
  }

  lemma {:induction false} DecimalIsAtLeast(s: string)
    requires CanonicalDigits(s) && s[0] != '0'
    ensures Decimal(s) >= 1 && (|s| >= 2 ==> Decimal(s) >= 10)
  {
    if |s| >= 2 { DecimalIsAtLeast(s[..|s| - 1]); }
    else { assert s[..0] == ""; }
  }

  lemma {:induction false} DecimalIsInjective(a: string, b: string)
    requires CanonicalDigits(a) && CanonicalDigits(b) && Decimal(a) == Decimal(b)
    ensures a == b
  {
    var m, n := |a| - 1, |b| - 1;
    assert a == a[..m] + [a[m]] && b == b[..n] + [b[n]];
    if a[0] != '0' { DecimalIsAtLeast(a); }
    if b[0] != '0' { DecimalIsAtLeast(b); }
    if m == 0 { assert a[..m] == ""; }
    if n == 0 { assert b[..n] == ""; }
    if m > 0 && n > 0 { DecimalIsInjective(a[..m], b[..n]); }
  }

  lemma {:induction false} ShowIsCanonical(n: nat)
    ensures CanonicalDigits(Show(n)) && (n > 0 ==> Show(n)[0] != '0')
  {
    ShowReadsBack(n);
    if n >= 10 { ShowIsCanonical(n / 10); }
  }

  /** Array indices are the decimal numerals of the numbers up to 4294967294. */
  lemma IndexNamesAre(key: string)
    ensures IsIndex(key) <==> exists n: nat :: n <= 4_294_967_294 && key == Show(n)
  {
    if IsIndex(key) {
      ShowIsCanonical(Decimal(key));
      ShowReadsBack(Decimal(key));
      DecimalIsInjective(key, Show(Decimal(key)));
    }
    if n: nat :| n <= 4_294_967_294 && key == Show(n) {
      ShowIsCanonical(n);
      ShowReadsBack(n);
    }
  }

  /** The enumeration order is a strict total order on names. */
  lemma BeforeIsTotal(a: string, b: string)
    ensures a == b ==> !Before(a, b)
    ensures a != b ==> Before(a, b) != Before(b, a)
  {
    LessIsTotal(Units(a), Units(b));
    if Units(a) == Units(b) { UnitsAreInjective(a, b); }
    if IsIndex(a) && IsIndex(b) && Decimal(a) == Decimal(b) { DecimalIsInjective(a, b); }
  }

  lemma BeforeIsTransitive(a: string, b: string, c: string)
    requires Before(a, b) && Before(b, c)
    ensures Before(a, c)
  {
    if !IsIndex(a) { LessIsTransitive(Units(a), Units(b), Units(c)); }
  }

  // ---- sorting and enumerating fields ---------------------------------------------------

  /** The comparison of the source's `sort`, and the numeric one of index enumeration. */
  datatype Order = ByText | ByNumber

  predicate Lt(o: Order, a: string, b: string) {
    if o.ByText? then TextLess(a, b) else Before(a, b)
  }

  function Insert(o: Order, e: Entry, sorted: seq<Entry>): seq<Entry> {
    if sorted == [] || Lt(o, e.key, sorted[0].key) then [e] + sorted
    else [sorted[0]] + Insert(o, e, sorted[1..])
  }

  function Sort(o: Order, entries: seq<Entry>): seq<Entry> {
    if entries == [] then [] else Insert(o, entries[0], Sort(o, entries[1..]))
  }

  /** The fields that are (or are not) array indices, in the order given. */
  function Select(entries: seq<Entry>, index: bool): seq<Entry> {
    if entries == [] then []
    else (if IsIndex(entries[0].key) == index then [entries[0]] else []) + Select(entries[1..], index)
  }

  /** The enumeration order of an object filled in the order given (`Object.fromEntries`). */
  function Enumerate(entries: seq<Entry>): seq<Entry> {
    Sort(ByNumber, Select(entries, true)) + Select(entries, false)
  }

  function Arrange(entries: seq<Entry>): seq<Entry> {
    Enumerate(Sort(ByText, entries))
  }

  /** `canonicalJson`; as only names are compared, values may be made canonical first. */
  function Canonical(v: Json): Json
    decreases v, 1
  {
    match v
    case Array(items) => Array(CanonicalItems(items))
    case Object(entries) => Object(Arrange(CanonicalEntries(entries)))
    case _ => v
  }

  function CanonicalItems(items: seq<Json>): (r: seq<Json>)
    ensures |r| == |items|
    ensures forall i :: 0 <= i < |items| ==> r[i] == Canonical(items[i])
    decreases items, 0
  {
    if items == [] then [] else [Canonical(items[0])] + CanonicalItems(items[1..])
  }

  function CanonicalEntries(entries: seq<Entry>): (r: seq<Entry>)
    ensures |r| == |entries|
    ensures forall i :: 0 <= i < |entries| ==> r[i] == Entry(entries[i].key, Canonical(entries[i].value))
    decreases entries, 0
  {
    if entries == [] then []
    else [Entry(entries[0].key, Canonical(entries[0].value))] + CanonicalEntries(entries[1..])
  }

  // ---- arranging is sorting by enumeration order ----------------------------------------

  ghost predicate SortedBy(o: Order, entries: seq<Entry>) {
    forall i, j :: 0 <= i < j < |entries| ==> Lt(o, entries[i].key, entries[j].key)
  }

  lemma LtIsTotal(o: Order, a: string, b: string)
    ensures a == b ==> !Lt(o, a, b)
    ensures a != b ==> Lt(o, a, b) != Lt(o, b, a)
  {
    LessIsTotal(Units(a), Units(b));
    if Units(a) == Units(b) { UnitsAreInjective(a, b); }
    BeforeIsTotal(a, b);
  }

  lemma LtIsTransitive(o: Order, a: string, b: string, c: string)
    requires Lt(o, a, b) && Lt(o, b, c)
    ensures Lt(o, a, c)
  {
    if o.ByText? { LessIsTransitive(Units(a), Units(b), Units(c)); } else { BeforeIsTransitive(a, b, c); }
  }

  lemma {:induction false} InsertKeeps(o: Order, e: Entry, sorted: seq<Entry>)
    ensures multiset(Insert(o, e, sorted)) == multiset(sorted) + multiset{e}
  {
    if sorted != [] && !Lt(o, e.key, sorted[0].key) {
      InsertKeeps(o, e, sorted[1..]);
      assert sorted == [sorted[0]] + sorted[1..];
    }
  }

  lemma {:induction false} InsertSorts(o: Order, e: Entry, sorted: seq<Entry>)
    requires SortedBy(o, sorted) && forall i :: 0 <= i < |sorted| ==> sorted[i].key != e.key
    ensures SortedBy(o, Insert(o, e, sorted))
  {
    hide Lt;
    var r := Insert(o, e, sorted);
    if sorted != [] {
      LtIsTotal(o, e.key, sorted[0].key);
      if Lt(o, e.key, sorted[0].key) {
        forall j | 1 <= j < |sorted| ensures Lt(o, e.key, sorted[j].key) {
          LtIsTransitive(o, e.key, sorted[0].key, sorted[j].key);
        }
      } else {
        var rest := Insert(o, e, sorted[1..]);
        InsertSorts(o, e, sorted[1..]);
        InsertKeeps(o, e, sorted[1..]);
        forall j | 0 <= j < |rest| ensures Lt(o, sorted[0].key, rest[j].key) {
          assert rest[j] in multiset(rest);
          assert rest[j] == e || rest[j] in sorted[1..];
        }
      }
    }
  }

  lemma {:induction false} SortKeeps(o: Order, entries: seq<Entry>)
    ensures multiset(Sort(o, entries)) == multiset(entries)
  {
    if entries != [] {
      SortKeeps(o, entries[1..]);
      InsertKeeps(o, entries[0], Sort(o, entries[1..]));
      assert entries == [entries[0]] + entries[1..];
    }
  }

  lemma {:induction false} SortSorts(o: Order, entries: seq<Entry>)
    requires Distinct(entries)
    ensures SortedBy(o, Sort(o, entries))
  {
    if entries != [] {
      var rest := Sort(o, entries[1..]);
      SortSorts(o, entries[1..]);
      SortKeeps(o, entries[1..]);
      forall i | 0 <= i < |rest| ensures rest[i].key != entries[0].key {
        assert rest[i] in multiset(rest) && rest[i] in entries[1..];
      }
      InsertSorts(o, entries[0], rest);
    }
  }

  lemma {:induction false} SelectKeeps(entries: seq<Entry>)
    ensures multiset(Select(entries, true)) + multiset(Select(entries, false)) == multiset(entries)
  {
    if entries != [] {
      SelectKeeps(entries[1..]);
      assert entries == [entries[0]] + entries[1..];
    }
  }

  lemma {:induction false} SelectOrders(o: Order, entries: seq<Entry>, index: bool)
    requires SortedBy(o, entries)
    ensures SortedBy(o, Select(entries, index))
    ensures forall i :: 0 <= i < |Select(entries, index)| ==>
              Select(entries, index)[i] in entries && IsIndex(Select(entries, index)[i].key) == index
  {
    hide Lt, IsIndex;
    if entries != [] { SelectOrders(o, entries[1..], index); }
  }

  lemma SortedIsDistinct(o: Order, entries: seq<Entry>)
    requires SortedBy(o, entries)
    ensures Distinct(entries)
  {
    forall i, j | 0 <= i < j < |entries| ensures entries[i].key != entries[j].key {
      LtIsTotal(o, entries[i].key, entries[j].key);
    }
  }

  /** Whatever order the fields came in, they leave in enumeration order, none lost or added. */
  lemma ArrangeSorts(entries: seq<Entry>)
    requires Distinct(entries)
    ensures SortedBy(ByNumber, Arrange(entries)) && multiset(Arrange(entries)) == multiset(entries)
  {
    hide Lt, Sort, Select;
    var sorted := Sort(ByText, entries);
    SortSorts(ByText, entries);
    SortKeeps(ByText, entries);
    SelectKeeps(sorted);
    SelectOrders(ByText, sorted, true);
    SelectOrders(ByText, sorted, false);
    var indices, others := Select(sorted, true), Select(sorted, false);
    SortedIsDistinct(ByText, indices);
    SortSorts(ByNumber, indices);
    SortKeeps(ByNumber, indices);
    var front := Sort(ByNumber, indices);
    var all := front + others;
    forall i | 0 <= i < |front| ensures IsIndex(front[i].key) {
      assert front[i] in multiset(front) && front[i] in indices;
    }
    JoinSorted(front, others);
  }

  lemma JoinSorted(front: seq<Entry>, others: seq<Entry>)
    requires SortedBy(ByNumber, front) && SortedBy(ByText, others)
    requires forall i :: 0 <= i < |front| ==> IsIndex(front[i].key)
    requires forall i :: 0 <= i < |others| ==> !IsIndex(others[i].key)
    ensures SortedBy(ByNumber, front + others)
  {
  }

  /** A sorted list is determined by its elements. */
  lemma {:induction false} SortedIsUnique(a: seq<Entry>, b: seq<Entry>)
    requires SortedBy(ByNumber, a) && SortedBy(ByNumber, b) && forall x :: x in a <==> x in b
    ensures a == b
  {
    hide Lt;
    assert b != [] ==> b[0] in b;
    if a != [] {
      assert a[0] in b && b[0] in a;
      var i :| 0 <= i < |a| && a[i] == b[0];
      var j :| 0 <= j < |b| && b[j] == a[0];
      LtIsTotal(ByNumber, a[0].key, b[0].key);
      HeadOnlyOnce(a);
      HeadOnlyOnce(b);
      forall x ensures x in a[1..] <==> x in b[1..] {
        assert x in a <==> x == a[0] || x in a[1..];
        assert x in b <==> x == b[0] || x in b[1..];
      }
      SortedIsUnique(a[1..], b[1..]);
      assert a == [a[0]] + a[1..] && b == [b[0]] + b[1..];
    }
  }

  lemma HeadOnlyOnce(a: seq<Entry>)
    requires a != [] && SortedBy(ByNumber, a)
    ensures a[0] !in a[1..]
  {
    LtIsTotal(ByNumber, a[0].key, a[0].key);
  }

  // ---- documents ------------------------------------------------------------------------

  /** The fields of every object have distinct names. */
  ghost predicate WellFormed(v: Json)
    decreases v
  {
    match v
    case Array(items) => forall i :: 0 <= i < |items| ==> WellFormed(items[i])
    case Object(entries) => Distinct(entries) && forall i :: 0 <= i < |entries| ==> WellFormed(entries[i].value)
    case _ => true
  }

  /** Equal up to the order of object fields, at any depth; array order and leaves count. */
  ghost predicate Same(v: Json, w: Json)
    decreases v, 0
  {
    match v
    case Array(items) =>
      w.Array? && |items| == |w.items| && forall i :: 0 <= i < |items| ==> Same(items[i], w.items[i])
    case Object(entries) =>
      && w.Object?
      && (forall i :: 0 <= i < |entries| ==> HasSame(entries[i], w.entries))
      && (forall j :: 0 <= j < |w.entries| ==> HasKey(w.entries[j].key, entries))
    case _ => v == w
  }

  ghost predicate SameField(e: Entry, f: Entry)
    decreases e, 0
  {
    e.key == f.key && Same(e.value, f.value)
  }

  ghost predicate HasSame(e: Entry, entries: seq<Entry>)
    decreases e, 1
  {
    exists j :: 0 <= j < |entries| && SameField(e, entries[j])
  }

  ghost predicate HasKey(key: string, entries: seq<Entry>) {
    exists i :: 0 <= i < |entries| && entries[i].key == key
  }

  /** The two lists hold the same fields. */
  ghost predicate SameElements(a: seq<Entry>, b: seq<Entry>) {
    (forall i :: 0 <= i < |a| ==> a[i] in b) && (forall j :: 0 <= j < |b| ==> b[j] in a)
  }

  lemma ArrangeElements(entries: seq<Entry>)
    requires Distinct(entries)
    ensures SameElements(entries, Arrange(entries))
  {
    hide Arrange;
    ArrangeSorts(entries);
    var r := Arrange(entries);
    forall i | 0 <= i < |entries| ensures entries[i] in r { assert entries[i] in multiset(entries); }
    forall i | 0 <= i < |r| ensures r[i] in entries { assert r[i] in multiset(r); }
  }

  /** Canonical forms of two objects are equal exactly when their fields correspond. */
  lemma ArrangedEqualIff(c: seq<Entry>, d: seq<Entry>)
    requires Distinct(c) && Distinct(d)
    ensures Arrange(c) == Arrange(d) <==> SameElements(c, d)
  {
    hide Arrange, SortedBy;
    ArrangeSorts(c);
    ArrangeSorts(d);
    ArrangeElements(c);
    ArrangeElements(d);
    if SameElements(c, d) {
      forall x ensures x in Arrange(c) <==> x in Arrange(d) {
        assert x in Arrange(c) ==> x in c ==> x in d ==> x in Arrange(d);
        assert x in Arrange(d) ==> x in d ==> x in c ==> x in Arrange(c);
      }
      SortedIsUnique(Arrange(c), Arrange(d));
    }
    if Arrange(c) == Arrange(d) {
      var r := Arrange(c);
      forall i | 0 <= i < |c| ensures c[i] in d {
        var k :| 0 <= k < |r| && r[k] == c[i];
      }
      forall i | 0 <= i < |d| ensures d[i] in c {
        var k :| 0 <= k < |r| && r[k] == d[i];
      }
    }
  }

  /** Two documents have the same canonical form if and only if they differ in nothing but the
      order of object fields, at any depth. */
  lemma {:induction false} CanonicalIffSame(v: Json, w: Json)
    requires WellFormed(v) && WellFormed(w)
    ensures Canonical(v) == Canonical(w) <==> Same(v, w)
    decreases v
  {
    if v.Array? && w.Array? {
      forall i | 0 <= i < |v.items| && i < |w.items|
        ensures Canonical(v.items[i]) == Canonical(w.items[i]) <==> Same(v.items[i], w.items[i])
      {
        CanonicalIffSame(v.items[i], w.items[i]);
      }
    } else if v.Object? && w.Object? {
      forall i, j | 0 <= i < |v.entries| && 0 <= j < |w.entries|
        ensures Canonical(v.entries[i].value) == Canonical(w.entries[j].value) <==> Same(v.entries[i].value, w.entries[j].value)
      {
        CanonicalIffSame(v.entries[i].value, w.entries[j].value);
      }
      ArrangedEqualIff(CanonicalEntries(v.entries), CanonicalEntries(w.entries));
      FieldsCorrespondIff(v, w);
    }
  }

  /** The values of two objects are canonically equal exactly when they are the same. */
  ghost predicate ValuesDecided(a: seq<Entry>, b: seq<Entry>) {
    forall i, j :: 0 <= i < |a| && 0 <= j < |b| ==>
      (Canonical(a[i].value) == Canonical(b[j].value) <==> Same(a[i].value, b[j].value))
  }

  lemma FieldsCorrespondIff(v: Json, w: Json)
    requires v.Object? && w.Object? && Distinct(v.entries) && Distinct(w.entries) && ValuesDecided(v.entries, w.entries)
    ensures Same(v, w) <==> SameElements(CanonicalEntries(v.entries), CanonicalEntries(w.entries))
  {
    hide Canonical, SameElements;
    if Same(v, w) { SameFieldsCorrespond(v, w); }
    if SameElements(CanonicalEntries(v.entries), CanonicalEntries(w.entries)) { CorrespondingFieldsAreSame(v, w); }
  }

  lemma CorrespondingFieldsAreSame(v: Json, w: Json)
    requires v.Object? && w.Object? && ValuesDecided(v.entries, w.entries)
    requires SameElements(CanonicalEntries(v.entries), CanonicalEntries(w.entries))
    ensures Same(v, w)
  {
    hide Canonical, SameField, HasSame, HasKey, SameElements, ValuesDecided;
    var a, b := v.entries, w.entries;
    forall i | 0 <= i < |a| ensures HasSame(a[i], b) { ElementIsSame(a, b, i); }
    forall j | 0 <= j < |b| ensures HasKey(b[j].key, a) { ElementIsNamed(a, b, j); }
  }

  lemma ElementIsSame(a: seq<Entry>, b: seq<Entry>, i: nat)
    requires i < |a| && ValuesDecided(a, b) && SameElements(CanonicalEntries(a), CanonicalEntries(b))
    ensures HasSame(a[i], b)
  {
    hide Canonical, Same;
    var c, d := CanonicalEntries(a), CanonicalEntries(b);
    assert c[i] in d;
    var j :| 0 <= j < |d| && d[j] == c[i];
    assert SameField(a[i], b[j]);
  }

  lemma ElementIsNamed(a: seq<Entry>, b: seq<Entry>, j: nat)
    requires j < |b| && SameElements(CanonicalEntries(a), CanonicalEntries(b))
    ensures HasKey(b[j].key, a)
  {
    hide Canonical, Same;
    var c, d := CanonicalEntries(a), CanonicalEntries(b);
    assert d[j] in c;
    var i :| 0 <= i < |c| && c[i] == d[j];
    assert a[i].key == b[j].key;
  }

  lemma SameFieldsCorrespond(v: Json, w: Json)
    requires v.Object? && w.Object? && Distinct(w.entries) && ValuesDecided(v.entries, w.entries)
    requires Same(v, w)
    ensures SameElements(CanonicalEntries(v.entries), CanonicalEntries(w.entries))
  {
    hide Canonical, SameField, HasSame, Distinct, HasKey;
    var a, b := v.entries, w.entries;
    var c, d := CanonicalEntries(a), CanonicalEntries(b);
    forall i | 0 <= i < |c| ensures c[i] in d {
      var j := FieldIsFound(a, b, i);
      assert d[j] == c[i];
    }
    forall j | 0 <= j < |d| ensures d[j] in c {
      var i := FieldIsNamed(a, b, j);
      assert c[i] == d[j];
    }
  }

  lemma FieldIsFound(a: seq<Entry>, b: seq<Entry>, i: nat) returns (j: nat)
    requires i < |a| && ValuesDecided(a, b) && HasSame(a[i], b)
    ensures j < |b| && a[i].key == b[j].key && Canonical(a[i].value) == Canonical(b[j].value)
  {
    hide Canonical, Same;
    var k :| 0 <= k < |b| && SameField(a[i], b[k]);
    j := k;
  }

  lemma FieldIsNamed(a: seq<Entry>, b: seq<Entry>, j: nat) returns (i: nat)
    requires j < |b| && Distinct(b) && ValuesDecided(a, b) && HasKey(b[j].key, a)
    requires forall i :: 0 <= i < |a| ==> HasSame(a[i], b)
    ensures i < |a| && a[i].key == b[j].key && Canonical(a[i].value) == Canonical(b[j].value)
  {
    hide Canonical, Same, HasSame, ValuesDecided;
    var l :| 0 <= l < |a| && a[l].key == b[j].key;
    var k := FieldIsFound(a, b, l);
    i := l;
  }

  /** A document and its canonical form differ in nothing but field order: no field, item or
      leaf is lost, added or changed, and arrays keep their order. */
  lemma {:induction false} CanonicalIsSame(v: Json)
    requires WellFormed(v)
    ensures WellFormed(Canonical(v)) && Same(v, Canonical(v))
    decreases v
  {
    match v
    case Array(items) =>
      assert forall i :: 0 <= i < |items| ==> CanonicalItems(items)[i] == Canonical(items[i]);
      forall i | 0 <= i < |items| ensures WellFormed(Canonical(items[i])) && Same(items[i], Canonical(items[i])) {
        CanonicalIsSame(items[i]);
      }
    case Object(entries) =>
      forall i | 0 <= i < |entries|
        ensures Settled(entries[i].value)
      {
        CanonicalIsSame(entries[i].value);
      }
      ArrangedIsSame(v);
    case _ =>
  }

  /** The canonical form of the value is well formed and differs from it in field order only. */
  ghost predicate Settled(v: Json) {
    WellFormed(Canonical(v)) && Same(v, Canonical(v))
  }

  lemma ArrangedIsSame(v: Json)
    requires v.Object? && Distinct(v.entries) && forall i :: 0 <= i < |v.entries| ==> Settled(v.entries[i].value)
    ensures WellFormed(Object(Arrange(CanonicalEntries(v.entries)))) && Same(v, Object(Arrange(CanonicalEntries(v.entries))))
  {
    hide Canonical, Arrange, Settled, HasSame, HasKey, SortedBy, SameElements;
    var c := CanonicalEntries(v.entries);
    var r := Arrange(c);
    ArrangeSorts(c);
    ArrangeElements(c);
    SortedIsDistinct(ByNumber, r);
    forall j | 0 <= j < |r| ensures HasKey(r[j].key, v.entries) && WellFormed(r[j].value) {
      ArrangedFieldIsOld(v.entries, r, j);
    }
    forall i | 0 <= i < |v.entries| ensures HasSame(v.entries[i], r) {
      OldFieldIsArranged(v.entries, r, i);
    }
  }

  lemma ArrangedFieldIsOld(a: seq<Entry>, r: seq<Entry>, j: nat)
    requires j < |r| && SameElements(CanonicalEntries(a), r) && forall i :: 0 <= i < |a| ==> Settled(a[i].value)
    ensures HasKey(r[j].key, a) && WellFormed(r[j].value)
  {
    hide Canonical, Same, WellFormed;
    var c := CanonicalEntries(a);
    assert r[j] in c;
    var i :| 0 <= i < |c| && c[i] == r[j];
    assert Settled(a[i].value);
  }

  lemma OldFieldIsArranged(a: seq<Entry>, r: seq<Entry>, i: nat)
    requires i < |a| && SameElements(CanonicalEntries(a), r) && Settled(a[i].value)
    ensures HasSame(a[i], r)
  {
    hide Canonical, Same, WellFormed;
    var c := CanonicalEntries(a);
    assert c[i] in r;
    var j :| 0 <= j < |r| && r[j] == c[i];
    assert SameField(a[i], r[j]);
  }

  /** Making a document canonical twice changes nothing more. */
  lemma CanonicalIsIdempotent(v: Json)
    requires WellFormed(v)
    ensures Canonical(Canonical(v)) == Canonical(v)
  {
    hide Canonical;
    CanonicalIsSame(v);
    CanonicalIffSame(v, Canonical(v));
  }

  // ---- "object keys sorted" -------------------------------------------------------------

  /** Among these names, index names compare as texts the way they compare as numbers, and each
      of them comes before every other name as a text. */
  ghost predicate IndicesReadAsText(entries: seq<Entry>) {
    forall i, j :: 0 <= i < |entries| && 0 <= j < |entries| && IsIndex(entries[i].key) ==>
      && (IsIndex(entries[j].key) && Decimal(entries[i].key) < Decimal(entries[j].key) ==> TextLess(entries[i].key, entries[j].key))
      && (!IsIndex(entries[j].key) ==> TextLess(entries[i].key, entries[j].key))
  }

  /** The rebuilt object is sorted by name, as the control plane sorts it, exactly when its index
      names read as texts the way they are enumerated. */
  lemma SortedByTextIff(entries: seq<Entry>)
    requires Distinct(entries)
    ensures SortedBy(ByText, Arrange(entries)) <==> IndicesReadAsText(entries)
  {
    hide Arrange, SortedBy, Distinct;
    ArrangeSorts(entries);
    ArrangeElements(entries);
    if SortedBy(ByText, Arrange(entries)) { SortedReadsAsText(entries, Arrange(entries)); }
    if IndicesReadAsText(entries) { TextReadIsSorted(entries, Arrange(entries)); }
  }

  lemma SortedReadsAsText(entries: seq<Entry>, r: seq<Entry>)
    requires SameElements(entries, r) && SortedBy(ByNumber, r) && SortedBy(ByText, r)
    ensures IndicesReadAsText(entries)
  {
    hide SameElements, SortedBy, Decimal, TextLess, IsIndex;
    forall i, j | 0 <= i < |entries| && 0 <= j < |entries| && Before(entries[i].key, entries[j].key)
      ensures TextLess(entries[i].key, entries[j].key)
    {
      BothOrders(entries, r, i, j);
    }
  }

  lemma BothOrders(entries: seq<Entry>, r: seq<Entry>, i: nat, j: nat)
    requires SameElements(entries, r) && SortedBy(ByNumber, r) && SortedBy(ByText, r)
    requires i < |entries| && j < |entries| && Before(entries[i].key, entries[j].key)
    ensures TextLess(entries[i].key, entries[j].key)
  {
    hide Before, TextLess;
    assert entries[i] in r && entries[j] in r;
    var k :| 0 <= k < |r| && r[k] == entries[i];
    var l :| 0 <= l < |r| && r[l] == entries[j];
    BeforeIsTotal(entries[i].key, entries[j].key);
  }

  lemma TextReadIsSorted(entries: seq<Entry>, r: seq<Entry>)
    requires SameElements(entries, r) && SortedBy(ByNumber, r) && IndicesReadAsText(entries)
    ensures SortedBy(ByText, r)
  {
    hide Decimal, TextLess, IsIndex;
    forall k, l | 0 <= k < l < |r| ensures Lt(ByText, r[k].key, r[l].key) {
      assert r[k] in entries && r[l] in entries;
      var i :| 0 <= i < |entries| && entries[i] == r[k];
      var j :| 0 <= j < |entries| && entries[j] == r[l];
      assert Lt(ByNumber, r[k].key, r[l].key);
    }
  }

  /** It need not be: `9` comes out before `10`, which sorts before it. */
  lemma IndexNamesEscapeSorting()
    ensures !SortedBy(ByText, Arrange([Entry("10", Null), Entry("9", Null)]))
  {
    hide Arrange, SortedBy;
    var e := [Entry("10", Null), Entry("9", Null)];
    assert "9"[..0] == "" && "10"[..1] == "1" && "1"[..0] == "";
    assert Decimal("9") == 9 && Decimal("1") == 1 && Decimal("10") == 10;
    assert IsIndex(e[0].key) && IsIndex(e[1].key);
    assert Units("9")[0] == 57 && Units("10")[0] == 49;
    assert !TextLess(e[1].key, e[0].key);
    SortedByTextIff(e);
  }
}
