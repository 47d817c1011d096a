/** What a normalized event says, stated on the fields of the event itself: each result is the
    first candidate, in a fixed order of places and names, that holds a usable value. */
module EventMeaning {
  import opened Wrappers
  import opened Strings
  import opened Events

  // ---- candidates -----------------------------------------------------------------------

  /** How a candidate must look to be taken: a string or a number, a non-empty one, a person
      (a non-empty string or number, or an object that names one), a string, one that is not
      blank, a known label, or an object whose type, kind or role is a known label. */
  datatype How = AnyScalar | FullScalar | Person | AnyString | NonBlank | KnownLabel | Labelled

  datatype Candidate = Candidate(path: seq<string>, how: How)

  ghost function Reach(v: Value, path: seq<string>): Option<Value> {
    if path == [] then Some(v)
    else if v.Object? && path[0] in v.fields then Reach(v.fields[path[0]], path[1..])
    else None
  }

  ghost predicate IsLabel(raw: string, word: string) {
    (Lower(Trim(raw)) in {"human", "user"} && word == "human")
    || (Lower(Trim(raw)) in {"agent", "bot", "assistant"} && word == "agent")
  }

  /** The value reads as the string. */
  ghost predicate Reads(how: How, v: Value, s: string)
    decreases if how.Person? then 1 else 0
  {
    match how
    case AnyScalar => v == String(s) || v == Number(s)
    case FullScalar => (v == String(s) || v == Number(s)) && s != ""
    case Person =>
      || ((v == String(s) || v == Number(s)) && s != "")
      || (v.Object? && Named(v, 0, s))
    case AnyString => v == String(s)
    case NonBlank => v == String(s) && Trim(s) != ""
    case KnownLabel => v.String? && IsLabel(v.str, s)
    case Labelled =>
      && v.Object?
      && var key := if "type" in v.fields then "type" else if "kind" in v.fields then "kind" else "role";
         key in v.fields && v.fields[key].String? && IsLabel(v.fields[key].str, s)
  }

  /** The names a person object may carry, best first. */
  const PERSON_NAMES := ["name", "display_name", "username", "handle", "id"]

  ghost predicate Usable(v: Value, key: string, s: string) {
    v.Object? && key in v.fields && (v.fields[key] == String(s) || v.fields[key] == Number(s)) && s != ""
  }

  /** From position `from` on, the first name that holds a non-empty string or number. */
  ghost predicate Named(v: Value, from: nat, s: string) {
    exists k :: from <= k < 5 && Usable(v, PERSON_NAMES[k], s)
      && forall j, t :: from <= j < k ==> !Usable(v, PERSON_NAMES[j], t)
  }

  ghost predicate Holds(v: Value, c: Candidate, s: string) {
    Reach(v, c.path).Some? && Reads(c.how, Reach(v, c.path).value, s)
  }

  /** The first candidate that holds anything holds this; or none does. */
  ghost predicate Picks(v: Value, cs: seq<Candidate>, r: Option<string>) {
    match r
    case Some(s) => exists k :: 0 <= k < |cs| && Holds(v, cs[k], s) && forall j, t :: 0 <= j < k ==> !Holds(v, cs[j], t)
    case None => forall j, t :: 0 <= j < |cs| ==> !Holds(v, cs[j], t)
  }

  /** The names in one place. */
  ghost function In(place: seq<string>, names: seq<string>, how: How): (r: seq<Candidate>)
    ensures |r| == |names|
  {
    seq(|names|, i requires 0 <= i < |names| => Candidate(place + [names[i]], how))
  }

  /** The names at the top, in the message, in the payload, in the payload's message. */
  ghost function AllOver(names: seq<string>, how: How): seq<Candidate> {
    In([], names, how) + In(["message"], names, how) + (In(["payload"], names, how) + In(["payload", "message"], names, how))
  }

  // ---- picking is a function ------------------------------------------------------------

  lemma NamedOnce(v: Value, s: string, t: string)
    requires Named(v, 0, s) && Named(v, 0, t)
    ensures s == t
  {
    var k :| 0 <= k < 5 && Usable(v, PERSON_NAMES[k], s) && forall j, u :: 0 <= j < k ==> !Usable(v, PERSON_NAMES[j], u);
    var l :| 0 <= l < 5 && Usable(v, PERSON_NAMES[l], t) && forall j, u :: 0 <= j < l ==> !Usable(v, PERSON_NAMES[j], u);
  }

  lemma ReadsOnce(how: How, v: Value, s: string, t: string)
    requires Reads(how, v, s) && Reads(how, v, t)
    ensures s == t
  {
    hide Named, Lower, Trim;
    if how.Person? && v.Object? { NamedOnce(v, s, t); }
  }

  /** The candidates decide: what they pick is determined. */
  lemma PicksOnce(v: Value, cs: seq<Candidate>, a: Option<string>, b: Option<string>)
    requires Picks(v, cs, a) && Picks(v, cs, b)
    ensures a == b
  {
    hide Reads, Reach;
    if a.Some? && b.Some? {
      var k :| 0 <= k < |cs| && Holds(v, cs[k], a.value) && forall j, t :: 0 <= j < k ==> !Holds(v, cs[j], t);
      var l :| 0 <= l < |cs| && Holds(v, cs[l], b.value) && forall j, t :: 0 <= j < l ==> !Holds(v, cs[j], t);
      assert k == l;
      assert a.value == b.value by { HoldsOnce(v, cs[k], a.value, b.value); }
    }
  }

  lemma HoldsOnce(v: Value, c: Candidate, s: string, t: string)
    requires Holds(v, c, s) && Holds(v, c, t)
    ensures s == t
  {
    hide Reads;
    ReadsOnce(c.how, Reach(v, c.path).value, s, t);
  }

  lemma PicksNone(v: Value)
    ensures Picks(v, [], None)
  {
  }

  lemma PicksOne(v: Value, c: Candidate, r: Option<string>)
    requires match r case Some(s) => Holds(v, c, s) case None => forall t :: !Holds(v, c, t)
    ensures Picks(v, [c], r)
  {
    hide Holds;
    if r.Some? { assert Holds(v, [c][0], r.value); }
  }

  lemma PicksConcat(v: Value, a: seq<Candidate>, b: seq<Candidate>, x: Option<string>, y: Option<string>)
    requires Picks(v, a, x) && Picks(v, b, y)
    ensures Picks(v, a + b, OrElse(x, y))
  {
    hide Holds;
    var cs := a + b;
    assert forall j :: 0 <= j < |a| ==> cs[j] == a[j];
    assert forall j :: |a| <= j < |cs| ==> cs[j] == b[j - |a|];
    if x.Some? {
      var k :| 0 <= k < |a| && Holds(v, a[k], x.value) && forall j, t :: 0 <= j < k ==> !Holds(v, a[j], t);
      assert Holds(v, cs[k], x.value);
    } else if y.Some? {
      var k :| 0 <= k < |b| && Holds(v, b[k], y.value) && forall j, t :: 0 <= j < k ==> !Holds(v, b[j], t);
      assert Holds(v, cs[|a| + k], y.value);
      forall j, t | 0 <= j < |a| + k ensures !Holds(v, cs[j], t) {
        if j >= |a| { assert !Holds(v, b[j - |a|], t); }
      }
    } else {
      forall j, t | 0 <= j < |cs| ensures !Holds(v, cs[j], t) {
        if j >= |a| { assert !Holds(v, b[j - |a|], t); }
      }
    }
  }

  // ---- the lookups of the parser pick ---------------------------------------------------

  ghost function PathOf(n: Nesting): seq<string> {
    match n
    case Top => []
    case Message => ["message"]
    case Payload => ["payload"]
    case PayloadMessage => ["payload", "message"]
  }

  lemma FieldIsReached(v: Value, n: Nesting, key: string)
    ensures Reach(v, PathOf(n) + [key]) == Field(v, n, key)
  {
    assert [key][1..] == [];
    assert forall x: Value :: Reach(x, [key]) == Get(Some(x), key);
    match n
    case Top => assert [] + [key] == [key];
    case Message =>
      var p := PathOf(n) + [key];
      assert p[0] == "message" && p[1..] == [key];
    case Payload =>
      var p := PathOf(n) + [key];
      assert p[0] == "payload" && p[1..] == [key];
    case PayloadMessage =>
      var p := PathOf(n) + [key];
      assert p[0] == "payload" && p[1..] == ["message", key] && p[1..][0] == "message" && p[1..][1..] == [key];
  }

  lemma NameIsReached(v: Value, n: Nesting, key: string, name: string)
    ensures Reach(v, PathOf(n) + [key, name]) == Get(Field(v, n, key), name)
  {
    FieldIsReached(v, n, key);
    ReachOn(v, PathOf(n) + [key], name);
    assert PathOf(n) + [key] + [name] == PathOf(n) + [key, name];
  }

  lemma {:induction false} ReachOn(v: Value, path: seq<string>, name: string)
    ensures Reach(v, path + [name]) == Get(Reach(v, path), name)
  {
    if path == [] {
      assert path + [name] == [name] && [name][1..] == [];
    } else {
      assert (path + [name])[1..] == path[1..] + [name];
      if v.Object? && path[0] in v.fields { ReachOn(v.fields[path[0]], path[1..], name); }
    }
  }

  lemma {:induction false} FirstFieldIsNamed(v: Value, from: nat)
    requires v.Object? && from <= 5
    ensures var r := FirstField(v.fields, PERSON_NAMES[from..]);
      match r case Some(s) => Named(v, from, s) case None => forall t :: !Named(v, from, t)
    decreases 5 - from
  {
    if from < 5 {
      FirstFieldIsNamed(v, from + 1);
      var key := PERSON_NAMES[from];
      assert PERSON_NAMES[from..][0] == key && PERSON_NAMES[from..][1..] == PERSON_NAMES[from + 1..];
      var here := key in v.fields && Scalar(v.fields[key]).Some? && Scalar(v.fields[key]).value != "";
      if here {
        assert Usable(v, key, Scalar(v.fields[key]).value);
      } else {
        assert forall t :: !Usable(v, key, t);
        forall t ensures Named(v, from, t) <==> Named(v, from + 1, t) { NamedLater(v, from, t); }
      }
    }
  }

  lemma NamedLater(v: Value, from: nat, t: string)
    requires from < 5 && forall u :: !Usable(v, PERSON_NAMES[from], u)
    ensures Named(v, from, t) <==> Named(v, from + 1, t)
  {
    hide Usable;
    if Named(v, from + 1, t) {
      var k :| from + 1 <= k < 5 && Usable(v, PERSON_NAMES[k], t) && forall j, u :: from + 1 <= j < k ==> !Usable(v, PERSON_NAMES[j], u);
    }
  }

  /** What a reading of a field takes, as the condition on the value itself. */
  ghost function HowOf(read: Reading, nonEmpty: bool): How {
    match read
    case SCALAR => if nonEmpty then FullScalar else AnyScalar
    case SENDER => Person
    case AGENT_NAME => FullScalar
    case NON_BLANK => NonBlank
  }

  ghost function CandidateOf(row: (Nesting, string), read: Reading, nonEmpty: bool): Candidate {
    Candidate(PathOf(row.0) + if read.AGENT_NAME? then [row.1, "name"] else [row.1], HowOf(read, nonEmpty))
  }

  ghost predicate Sensible(read: Reading, nonEmpty: bool) {
    (read.SENDER? || read.AGENT_NAME? ==> nonEmpty) && (read.NON_BLANK? ==> !nonEmpty)
  }

  lemma ReadHolds(v: Value, row: (Nesting, string), read: Reading, nonEmpty: bool)
    requires Sensible(read, nonEmpty)
    ensures var found := Read(read, Field(v, row.0, row.1));
            var c := CandidateOf(row, read, nonEmpty);
      if found.Some? && (nonEmpty ==> found.value != "") then Holds(v, c, found.value) else forall t :: !Holds(v, c, t)
  {
    hide Trim, Reach, Field, Nested, Named, FirstField;
    FieldIsReached(v, row.0, row.1);
    NameIsReached(v, row.0, row.1, "name");
    var f := Field(v, row.0, row.1);
    var c := CandidateOf(row, read, nonEmpty);
    assert PERSON_NAMES[0..] == PERSON_NAMES;
    if read.AGENT_NAME? {
      assert Reach(v, c.path) == Get(f, "name");
    } else {
      assert Reach(v, c.path) == f;
      if read.SENDER? && f.Some? { PersonReads(f.value); }
    }
  }

  lemma PersonReads(x: Value)
    ensures var r := SenderValue(x);
      if r.Some? && r.value != "" then Reads(Person, x, r.value) else forall t :: !Reads(Person, x, t)
  {
    hide Named;
    assert PERSON_NAMES[0..] == PERSON_NAMES;
    if x.Object? {
      FirstFieldIsNamed(x, 0);
      NamedIsFull(x);
    }
  }

  lemma NamedIsFull(x: Value)
    ensures forall t :: Named(x, 0, t) ==> t != ""
  {
  }

  ghost function Candidates(table: Table, read: Reading, nonEmpty: bool): seq<Candidate> {
    seq(|table|, i requires 0 <= i < |table| => CandidateOf(table[i], read, nonEmpty))
  }

  lemma {:induction false} FirstPicks(v: Value, table: Table, read: Reading, nonEmpty: bool)
    requires Sensible(read, nonEmpty)
    ensures Picks(v, Candidates(table, read, nonEmpty), First(v, table, read, nonEmpty))
  {
    hide Holds, CandidateOf, Read, Field;
    if table == [] {
      assert Candidates(table, read, nonEmpty) == [];
      PicksNone(v);
    } else {
      var c, rest := CandidateOf(table[0], read, nonEmpty), Candidates(table[1..], read, nonEmpty);
      assert Candidates(table, read, nonEmpty) == [c] + rest;
      FirstPicks(v, table[1..], read, nonEmpty);
      ReadHolds(v, table[0], read, nonEmpty);
      var found := Read(read, Field(v, table[0].0, table[0].1));
      var x := if found.Some? && (nonEmpty ==> found.value != "") then found else None;
      PicksOne(v, c, x);
      PicksConcat(v, [c], rest, x, First(v, table[1..], read, nonEmpty));
    }
  }

  // ---- lists of candidates --------------------------------------------------------------

  lemma RowsAreIn(n: Nesting, keys: seq<string>, read: Reading, nonEmpty: bool)
    requires !read.AGENT_NAME?
    ensures Candidates(Rows(n, keys), read, nonEmpty) == In(PathOf(n), keys, HowOf(read, nonEmpty))
  {
    hide PathOf;
  }

  lemma CandidatesConcat(a: Table, b: Table, read: Reading, nonEmpty: bool)
    ensures Candidates(a + b, read, nonEmpty) == Candidates(a, read, nonEmpty) + Candidates(b, read, nonEmpty)
  {
    hide CandidateOf;
  }

  /** The rows of one place. */
  lemma PlacePicks(v: Value, n: Nesting, keys: seq<string>, read: Reading, nonEmpty: bool)
    requires Sensible(read, nonEmpty) && !read.AGENT_NAME?
    ensures Picks(v, In(PathOf(n), keys, HowOf(read, nonEmpty)), First(v, Rows(n, keys), read, nonEmpty))
  {
    hide Picks, First;
    RowsAreIn(n, keys, read, nonEmpty);
    FirstPicks(v, Rows(n, keys), read, nonEmpty);
  }

  /** The rows of all four places. */
  lemma EverywherePicks(v: Value, keys: seq<string>, read: Reading, nonEmpty: bool)
    requires Sensible(read, nonEmpty) && !read.AGENT_NAME?
    ensures Picks(v, AllOver(keys, HowOf(read, nonEmpty)), First(v, Everywhere(keys), read, nonEmpty))
  {
    hide Picks, First, In, Rows, Candidates;
    FirstPicks(v, Everywhere(keys), read, nonEmpty);
    CandidatesConcat(Rows(Top, keys) + Rows(Message, keys), Rows(Payload, keys) + Rows(PayloadMessage, keys), read, nonEmpty);
    CandidatesConcat(Rows(Top, keys), Rows(Message, keys), read, nonEmpty);
    CandidatesConcat(Rows(Payload, keys), Rows(PayloadMessage, keys), read, nonEmpty);
    RowsAreIn(Top, keys, read, nonEmpty);
    RowsAreIn(Message, keys, read, nonEmpty);
    RowsAreIn(Payload, keys, read, nonEmpty);
    RowsAreIn(PayloadMessage, keys, read, nonEmpty);
  }

  lemma AgentNamePicks(v: Value, n: Nesting)
    ensures Picks(v, [Candidate(PathOf(n) + ["agent", "name"], FullScalar)], First(v, Rows(n, ["agent"]), AGENT_NAME, true))
  {
    hide Picks, First, PathOf;
    FirstPicks(v, Rows(n, ["agent"]), AGENT_NAME, true);
    assert Candidates(Rows(n, ["agent"]), AGENT_NAME, true) == [Candidate(PathOf(n) + ["agent", "name"], FullScalar)];
  }

  lemma StringPicks(v: Value, n: Nesting, key: string)
    ensures Picks(v, [Candidate(PathOf(n) + [key], AnyString)], AsStr(Field(v, n, key)))
  {
    hide Picks, PathOf, Field;
    FieldIsReached(v, n, key);
    PicksOne(v, Candidate(PathOf(n) + [key], AnyString), AsStr(Field(v, n, key)));
  }

  // ---- the text -------------------------------------------------------------------------

  /** Text, body or content in any place, else the message itself where it is a string. */
  ghost function TextCandidates(): seq<Candidate> {
    AllOver(["text", "body", "content"], AnyScalar)
    + [Candidate(["message"], AnyString), Candidate(["payload", "message"], AnyString)]
  }

  lemma TextPicks(v: Value)
    ensures Picks(v, TextCandidates(), Text(v))
  {
    hide Picks, First, Field, In, AllOver;
    EverywherePicks(v, TEXT_KEYS, SCALAR, false);
    StringPicks(v, Top, "message");
    StringPicks(v, Payload, "message");
    var a, b := Candidate(["message"], AnyString), Candidate(["payload", "message"], AnyString);
    assert [] + ["message"] == ["message"] && ["payload"] + ["message"] == ["payload", "message"];
    PicksConcat(v, [a], [b], AsStr(Field(v, Top, "message")), AsStr(Field(v, Payload, "message")));
    assert [a] + [b] == [a, b];
    PicksConcat(v, AllOver(TEXT_KEYS, AnyScalar), [a, b], First(v, Everywhere(TEXT_KEYS), SCALAR, false),
                OrElse(AsStr(Field(v, Top, "message")), AsStr(Field(v, Payload, "message"))));
  }

  // ---- the sender -----------------------------------------------------------------------

  /** The agent's name, then any of six names of a person, place by place. */
  ghost function SenderCandidates(): seq<Candidate> {
    var names := ["from", "sender", "author", "from_agent", "agent", "agent_name"];
    [Candidate(["agent", "name"], FullScalar)] + (In([], names, Person) + (In(["message"], names, Person)
    + ([Candidate(["payload", "agent", "name"], FullScalar)] + (In(["payload"], names, Person) + In(["payload", "message"], names, Person)))))
  }

  /** The gateway's own identities are shown as the dashboard. */
  ghost function Shown(raw: Option<string>): string {
    match raw
    case None => "unknown"
    case Some(r) => if r == "broker" || "broker-" <= r || "human:" <= r then "Dashboard" else r
  }

  ghost predicate SenderMeans(v: Value, from: string) {
    exists raw :: (Picks(v, SenderCandidates(), raw) && from == Shown(raw))
  }

  lemma SenderPicks(v: Value)
    ensures SenderMeans(v, Sender(v).GetOr("unknown"))
  {
    hide Picks, First, In;
    var names := SENDER_KEYS;
    AgentNamePicks(v, Top);
    PlacePicks(v, Top, names, SENDER, true);
    PlacePicks(v, Message, names, SENDER, true);
    AgentNamePicks(v, Payload);
    PlacePicks(v, Payload, names, SENDER, true);
    PlacePicks(v, PayloadMessage, names, SENDER, true);
    assert [] + ["agent", "name"] == ["agent", "name"] && ["payload"] + ["agent", "name"] == ["payload", "agent", "name"];
    var a, b, c := First(v, Rows(Top, ["agent"]), AGENT_NAME, true), First(v, Rows(Top, names), SENDER, true), First(v, Rows(Message, names), SENDER, true);
    var d, e, f := First(v, Rows(Payload, ["agent"]), AGENT_NAME, true), First(v, Rows(Payload, names), SENDER, true), First(v, Rows(PayloadMessage, names), SENDER, true);
    var cf := In(["payload", "message"], names, Person);
    var ce := In(["payload"], names, Person);
    PicksConcat(v, ce, cf, e, f);
    var cd := [Candidate(["payload", "agent", "name"], FullScalar)];
    PicksConcat(v, cd, ce + cf, d, OrElse(e, f));
    var cc := In(["message"], names, Person);
    PicksConcat(v, cc, cd + (ce + cf), c, OrElse(d, OrElse(e, f)));
    var cb := In([], names, Person);
    PicksConcat(v, cb, cc + (cd + (ce + cf)), b, OrElse(c, OrElse(d, OrElse(e, f))));
    var ca := [Candidate(["agent", "name"], FullScalar)];
    PicksConcat(v, ca, cb + (cc + (cd + (ce + cf))), a, OrElse(b, OrElse(c, OrElse(d, OrElse(e, f)))));
    var raw := OrElse(a, OrElse(b, OrElse(c, OrElse(d, OrElse(e, f)))));
    assert Picks(v, SenderCandidates(), raw);
  }

  ghost function PresenceCandidates(): seq<Candidate> {
    [Candidate(["agent", "name"], FullScalar), Candidate(["payload", "agent", "name"], FullScalar)]
    + ((In([], ["agent_name"], FullScalar) + In(["payload"], ["agent_name"], FullScalar))
       + (In([], ["from"], FullScalar) + In(["payload"], ["from"], FullScalar)))
  }

  lemma TopAndPayloadPicks(v: Value, keys: seq<string>)
    ensures Picks(v, In([], keys, FullScalar) + In(["payload"], keys, FullScalar), First(v, TopAndPayload(keys), SCALAR, true))
  {
    hide Picks, First, In;
    PlacePicks(v, Top, keys, SCALAR, true);
    PlacePicks(v, Payload, keys, SCALAR, true);
    PicksConcat(v, In([], keys, FullScalar), In(["payload"], keys, FullScalar),
                First(v, Rows(Top, keys), SCALAR, true), First(v, Rows(Payload, keys), SCALAR, true));
    FirstOfConcat(v, Rows(Top, keys), Rows(Payload, keys), SCALAR, true);
  }

  lemma PresencePicks(v: Value)
    ensures Picks(v, PresenceCandidates(), PresenceSender(v))
  {
    hide Picks, First, In;
    AgentNamePicks(v, Top);
    AgentNamePicks(v, Payload);
    assert [] + ["agent", "name"] == ["agent", "name"] && ["payload"] + ["agent", "name"] == ["payload", "agent", "name"];
    var a, b := Candidate(["agent", "name"], FullScalar), Candidate(["payload", "agent", "name"], FullScalar);
    PicksConcat(v, [a], [b], First(v, Rows(Top, ["agent"]), AGENT_NAME, true), First(v, Rows(Payload, ["agent"]), AGENT_NAME, true));
    assert [a] + [b] == [a, b];
    FirstOfConcat(v, Rows(Top, ["agent"]), Rows(Payload, ["agent"]), AGENT_NAME, true);
    TopAndPayloadPicks(v, ["agent_name"]);
    TopAndPayloadPicks(v, ["from"]);
    var x, y := First(v, TopAndPayload(["agent_name"]), SCALAR, true), First(v, TopAndPayload(["from"]), SCALAR, true);
    PicksConcat(v, In([], ["agent_name"], FullScalar) + In(["payload"], ["agent_name"], FullScalar),
                In([], ["from"], FullScalar) + In(["payload"], ["from"], FullScalar), x, y);
    PicksConcat(v, [a, b], (In([], ["agent_name"], FullScalar) + In(["payload"], ["agent_name"], FullScalar))
                           + (In([], ["from"], FullScalar) + In(["payload"], ["from"], FullScalar)),
                First(v, TopAndPayload(["agent"]), AGENT_NAME, true), OrElse(x, y));
  }

  // ---- ids ------------------------------------------------------------------------------

  ghost function IdCandidates(): seq<Candidate> {
    AllOver(["event_id", "message_id", "id"], FullScalar)
  }

  ghost function AgentIdCandidates(): seq<Candidate> {
    In(["message"], ["agent_id"], FullScalar) + In(["payload", "message"], ["agent_id"], FullScalar)
    + (In([], ["agent_id"], FullScalar) + In(["payload"], ["agent_id"], FullScalar))
  }

  ghost function ThreadCandidates(): seq<Candidate> {
    In([], ["parent_id", "thread_id"], FullScalar) + In(["message"], ["thread_id"], FullScalar)
    + (In(["payload"], ["parent_id", "thread_id"], FullScalar) + In(["payload", "message"], ["thread_id"], FullScalar))
  }

  /** Four groups of rows, each of one place. */
  lemma FourPick(v: Value, a: Nesting, ka: seq<string>, b: Nesting, kb: seq<string>, c: Nesting, kc: seq<string>, d: Nesting, kd: seq<string>)
    ensures Picks(v, In(PathOf(a), ka, FullScalar) + In(PathOf(b), kb, FullScalar)
                     + (In(PathOf(c), kc, FullScalar) + In(PathOf(d), kd, FullScalar)),
                  First(v, Rows(a, ka) + Rows(b, kb) + (Rows(c, kc) + Rows(d, kd)), SCALAR, true))
  {
    hide Picks, First, In, Rows, Candidates, PathOf;
    FirstPicks(v, Rows(a, ka) + Rows(b, kb) + (Rows(c, kc) + Rows(d, kd)), SCALAR, true);
    CandidatesConcat(Rows(a, ka) + Rows(b, kb), Rows(c, kc) + Rows(d, kd), SCALAR, true);
    CandidatesConcat(Rows(a, ka), Rows(b, kb), SCALAR, true);
    CandidatesConcat(Rows(c, kc), Rows(d, kd), SCALAR, true);
    RowsAreIn(a, ka, SCALAR, true);
    RowsAreIn(b, kb, SCALAR, true);
    RowsAreIn(c, kc, SCALAR, true);
    RowsAreIn(d, kd, SCALAR, true);
  }

  lemma IdsPick(v: Value)
    ensures Picks(v, IdCandidates(), First(v, Everywhere(ID_KEYS), SCALAR, true))
    ensures Picks(v, AgentIdCandidates(), First(v, AGENT_ID_TABLE, SCALAR, true))
    ensures Picks(v, ThreadCandidates(), First(v, THREAD_TABLE, SCALAR, true))
  {
    hide Picks, First, In, Rows;
    EverywherePicks(v, ID_KEYS, SCALAR, true);
    FourPick(v, Message, ["agent_id"], PayloadMessage, ["agent_id"], Top, ["agent_id"], Payload, ["agent_id"]);
    FourPick(v, Top, ["parent_id", "thread_id"], Message, ["thread_id"], Payload, ["parent_id", "thread_id"], PayloadMessage, ["thread_id"]);
  }

  // ---- the target -----------------------------------------------------------------------

  ghost function TargetCandidates(): seq<Candidate> {
    AllOver(["target", "to", "recipient", "to_agent", "recipient_agent"], Person)
  }

  ghost function WithHash(channel: string): string {
    if channel != "" && channel[0] == '#' then channel else "#" + channel
  }

  ghost function DirectCandidates(): seq<Candidate> {
    TargetCandidates() + (In([], ["conversation_id"], FullScalar) + In(["payload"], ["conversation_id"], FullScalar))
  }

  ghost function ChannelCandidates(): seq<Candidate> {
    AllOver(["channel"], FullScalar)
  }

  ghost function OtherCandidates(): seq<Candidate> {
    TargetCandidates() + AllOver(["conversation_id"], FullScalar)
  }

  /** A direct message goes to its explicit target, else to the conversation named at the top or
      in the payload; anything else, and a direct message without either, to its channel, else
      to its explicit target, else to a conversation named anywhere; a thread reply without any
      of these to the thread. */
  ghost function Destination(kind: Kind, direct: Option<string>, channel: Option<string>, other: Option<string>): string {
    if (kind.DmReceived? || kind.GroupDmReceived?) && direct.Some? then direct.value
    else if channel.Some? then WithHash(channel.value)
    else if other.Some? then other.value
    else if kind.ThreadReply? then "thread" else "unknown"
  }

  ghost predicate TargetMeans(v: Value, kind: Kind, target: string) {
    exists direct, channel, other ::
      (Picks(v, DirectCandidates(), direct) && Picks(v, ChannelCandidates(), channel) && Picks(v, OtherCandidates(), other)
       && target == Destination(kind, direct, channel, other))
  }

  lemma TargetPicks(v: Value, kind: Kind)
    ensures TargetMeans(v, kind, Target(v, kind).GetOr("unknown"))
  {
    hide Picks, First, AllOver, Everywhere, TopAndPayload, DirectCandidates, ChannelCandidates, OtherCandidates;
    var explicit := First(v, Everywhere(TARGET_KEYS), SENDER, true);
    var conv, top := First(v, Everywhere(["conversation_id"]), SCALAR, true), First(v, TopAndPayload(["conversation_id"]), SCALAR, true);
    var channel := First(v, Everywhere(["channel"]), SCALAR, true);
    DestinationsPick(v);
    assert Target(v, kind).GetOr("unknown") == Destination(kind, OrElse(explicit, top), channel, OrElse(explicit, conv));
  }

  lemma DestinationsPick(v: Value)
    ensures var explicit := First(v, Everywhere(TARGET_KEYS), SENDER, true);
      && Picks(v, DirectCandidates(), OrElse(explicit, First(v, TopAndPayload(["conversation_id"]), SCALAR, true)))
      && Picks(v, ChannelCandidates(), First(v, Everywhere(["channel"]), SCALAR, true))
      && Picks(v, OtherCandidates(), OrElse(explicit, First(v, Everywhere(["conversation_id"]), SCALAR, true)))
  {
    hide Picks, First, In, AllOver, Everywhere, TopAndPayload;
    var explicit := First(v, Everywhere(TARGET_KEYS), SENDER, true);
    EverywherePicks(v, TARGET_KEYS, SENDER, true);
    EverywherePicks(v, ["channel"], SCALAR, true);
    EverywherePicks(v, ["conversation_id"], SCALAR, true);
    TopAndPayloadPicks(v, ["conversation_id"]);
    PicksConcat(v, TargetCandidates(), In([], ["conversation_id"], FullScalar) + In(["payload"], ["conversation_id"], FullScalar),
                explicit, First(v, TopAndPayload(["conversation_id"]), SCALAR, true));
    PicksConcat(v, TargetCandidates(), AllOver(["conversation_id"], FullScalar), explicit, First(v, Everywhere(["conversation_id"]), SCALAR, true));
  }

  // ---- the sender's kind ----------------------------------------------------------------

  ghost function WordOf(k: Option<SenderKind>): Option<string> {
    match k
    case Some(Human) => Some("human")
    case Some(Agent) => Some("agent")
    case _ => None
  }

  ghost function KindCandidates(): seq<Candidate> {
    AllOver(["from_type", "sender_type", "actor_type", "source_type", "origin_type", "sender_kind"], KnownLabel)
    + AllOver(["from", "sender", "author"], Labelled)
  }

  ghost function LabelCandidates(table: Table): seq<Candidate> {
    seq(|table|, i requires 0 <= i < |table| => Candidate(PathOf(table[i].0) + [table[i].1], KnownLabel))
  }

  lemma LabelReads(raw: string)
    ensures Label(raw) != Some(Unknown)
    ensures match WordOf(Label(raw)) case Some(w) => IsLabel(raw, w) case None => forall t :: !IsLabel(raw, t)
  {
    hide Lower, Trim;
  }

  lemma {:induction false} LabelPicks(v: Value, table: Table)
    ensures FirstLabel(v, table) != Some(Unknown)
    ensures Picks(v, LabelCandidates(table), WordOf(FirstLabel(v, table)))
  {
    hide Picks, Field, PathOf, Label, IsLabel;
    if table == [] {
      assert LabelCandidates(table) == [];
      PicksNone(v);
    } else {
      LabelPicks(v, table[1..]);
      var c, s := Candidate(PathOf(table[0].0) + [table[0].1], KnownLabel), AsStr(Field(v, table[0].0, table[0].1));
      FieldIsReached(v, table[0].0, table[0].1);
      if s.Some? { LabelReads(s.value); }
      var x := if s.Some? then WordOf(Label(s.value)) else None;
      PicksOne(v, c, x);
      assert LabelCandidates(table) == [c] + LabelCandidates(table[1..]);
      PicksConcat(v, [c], LabelCandidates(table[1..]), x, WordOf(FirstLabel(v, table[1..])));
    }
  }

  lemma {:induction false} ContainerPicks(v: Value, n: Nesting, containers: seq<string>)
    ensures ContainerLabel(Nested(v, n), containers) != Some(Unknown)
    ensures Picks(v, In(PathOf(n), containers, Labelled), WordOf(ContainerLabel(Nested(v, n), containers)))
  {
    hide Picks, PathOf, Label, IsLabel, Nested;
    if containers == [] {
      assert In(PathOf(n), containers, Labelled) == [];
      PicksNone(v);
    } else {
      ContainerPicks(v, n, containers[1..]);
      var c := Candidate(PathOf(n) + [containers[0]], Labelled);
      FieldIsReached(v, n, containers[0]);
      var box := Get(Nested(v, n), containers[0]);
      var t := if Get(box, "type").Some? then Get(box, "type") else if Get(box, "kind").Some? then Get(box, "kind") else Get(box, "role");
      if AsStr(t).Some? { LabelReads(AsStr(t).value); }
      var x := if AsStr(t).Some? then WordOf(Label(AsStr(t).value)) else None;
      PicksOne(v, c, x);
      assert In(PathOf(n), containers, Labelled) == [c] + In(PathOf(n), containers[1..], Labelled);
      PicksConcat(v, [c], In(PathOf(n), containers[1..], Labelled), x, WordOf(ContainerLabel(Nested(v, n), containers[1..])));
    }
  }

  lemma LabelRows(n: Nesting, keys: seq<string>)
    ensures LabelCandidates(Rows(n, keys)) == In(PathOf(n), keys, KnownLabel)
  {
    hide PathOf;
  }

  lemma LabelConcat(a: Table, b: Table)
    ensures LabelCandidates(a + b) == LabelCandidates(a) + LabelCandidates(b)
  {
    hide PathOf;
  }

  lemma FieldLabelPicks(v: Value)
    ensures FirstLabel(v, Everywhere(KIND_KEYS)) != Some(Unknown)
    ensures Picks(v, AllOver(["from_type", "sender_type", "actor_type", "source_type", "origin_type", "sender_kind"], KnownLabel),
                  WordOf(FirstLabel(v, Everywhere(KIND_KEYS))))
  {
    hide Picks, In, Rows, FirstLabel, LabelCandidates;
    var keys := KIND_KEYS;
    LabelPicks(v, Everywhere(keys));
    LabelConcat(Rows(Top, keys) + Rows(Message, keys), Rows(Payload, keys) + Rows(PayloadMessage, keys));
    LabelConcat(Rows(Top, keys), Rows(Message, keys));
    LabelConcat(Rows(Payload, keys), Rows(PayloadMessage, keys));
    LabelRows(Top, keys);
    LabelRows(Message, keys);
    LabelRows(Payload, keys);
    LabelRows(PayloadMessage, keys);
  }

  lemma ContainersPick(v: Value)
    ensures FirstContainer(v, [Top, Message, Payload, PayloadMessage]) != Some(Unknown)
    ensures Picks(v, AllOver(["from", "sender", "author"], Labelled), WordOf(FirstContainer(v, [Top, Message, Payload, PayloadMessage])))
  {
    hide Picks, In, ContainerLabel, Nested;
    var boxes := ["from", "sender", "author"];
    ContainerPicks(v, Top, boxes);
    ContainerPicks(v, Message, boxes);
    ContainerPicks(v, Payload, boxes);
    ContainerPicks(v, PayloadMessage, boxes);
    var a, b := ContainerLabel(Nested(v, Top), boxes), ContainerLabel(Nested(v, Message), boxes);
    var c, d := ContainerLabel(Nested(v, Payload), boxes), ContainerLabel(Nested(v, PayloadMessage), boxes);
    PicksConcat(v, In([], boxes, Labelled), In(["message"], boxes, Labelled), WordOf(a), WordOf(b));
    PicksConcat(v, In(["payload"], boxes, Labelled), In(["payload", "message"], boxes, Labelled), WordOf(c), WordOf(d));
    PicksConcat(v, In([], boxes, Labelled) + In(["message"], boxes, Labelled),
                In(["payload"], boxes, Labelled) + In(["payload", "message"], boxes, Labelled),
                OrElse(WordOf(a), WordOf(b)), OrElse(WordOf(c), WordOf(d)));
    var all := [Top, Message, Payload, PayloadMessage];
    assert all[1..] == [Message, Payload, PayloadMessage] && all[1..][1..] == [Payload, PayloadMessage]
      && all[1..][1..][1..] == [PayloadMessage] && all[1..][1..][1..][1..] == [];
    assert FirstContainer(v, [PayloadMessage]) == d;
    assert FirstContainer(v, [Payload, PayloadMessage]) == if c.Some? then c else d;
    assert FirstContainer(v, all) == if a.Some? then a else if b.Some? then b else if c.Some? then c else d;
  }

  ghost predicate SenderKindMeans(v: Value, kind: SenderKind) {
    exists word :: (Picks(v, KindCandidates(), word)
      && kind == if word == Some("human") then Human else if word == Some("agent") then Agent else Unknown)
  }

  lemma SenderKindPicks(v: Value)
    ensures SenderKindMeans(v, SenderKindOf(v))
  {
    hide Picks, FirstLabel, FirstContainer, AllOver;
    FieldLabelPicks(v);
    ContainersPick(v);
    var byField, byBox := FirstLabel(v, Everywhere(KIND_KEYS)), FirstContainer(v, [Top, Message, Payload, PayloadMessage]);
    PicksConcat(v, AllOver(["from_type", "sender_type", "actor_type", "source_type", "origin_type", "sender_kind"], KnownLabel),
                AllOver(["from", "sender", "author"], Labelled), WordOf(byField), WordOf(byBox));
    assert Picks(v, KindCandidates(), OrElse(WordOf(byField), WordOf(byBox)));
  }

  // ---- the whole event ------------------------------------------------------------------

  /** The kind an event type names. */
  ghost predicate TypeNames(ty: string, kind: Kind) {
    match kind
    case MessageCreated => ty in {"message.created", "message.received", "message.new", "message.sent", "message.delivered"}
    case DmReceived =>
      || ty in {"dm.received", "dm.created", "dm.new", "dm.sent", "dm.message.created"}
      || ty in {"direct_message.received", "direct_message.created", "direct_message.new", "direct_message.sent"}
    case ThreadReply => ty in {"thread.reply", "thread.message.created", "thread.message.sent"}
    case GroupDmReceived =>
      ty in {"group_dm.received", "group_dm.created", "group_dm.new", "group_dm.sent", "group_dm.message.created"}
    case Presence =>
      || ty in {"agent.status.changed", "agent.status.idle", "agent.status.active", "agent.status.blocked"}
      || ty in {"agent.status.waiting", "agent.status.offline", "user.online", "user.offline"}
    case ReactionReceived => ty == "message.reacted"
  }

  lemma TypesAreParsed(ty: string, kind: Kind)
    ensures ParseKind(ty) == Some(kind) <==> TypeNames(ty, kind)
  {
    hide ParseKind, TypeNames;
    MessageTypes(ty);
    DirectTypes(ty);
    GroupTypes(ty);
    PresenceTypes(ty);
  }

  lemma MessageTypes(ty: string)
    ensures ParseKind(ty) == Some(MessageCreated) <==> TypeNames(ty, MessageCreated)
    ensures ParseKind(ty) == Some(ThreadReply) <==> TypeNames(ty, ThreadReply)
  {
  }

  lemma DirectTypes(ty: string)
    ensures ParseKind(ty) == Some(DmReceived) <==> TypeNames(ty, DmReceived)
  {
  }

  lemma GroupTypes(ty: string)
    ensures ParseKind(ty) == Some(GroupDmReceived) <==> TypeNames(ty, GroupDmReceived)
    ensures ParseKind(ty) == Some(ReactionReceived) <==> TypeNames(ty, ReactionReceived)
  {
  }

  lemma PresenceTypes(ty: string)
    ensures ParseKind(ty) == Some(Presence) <==> TypeNames(ty, Presence)
  {
    hide ParseKind, TypeNames;
    if TypeNames(ty, Presence) { NamedPresence(ty); }
    if ParseKind(ty) == Some(Presence) { ParsedPresence(ty); }
  }

  lemma NamedPresence(ty: string)
    requires TypeNames(ty, Presence)
    ensures ParseKind(ty) == Some(Presence)
  {
    hide ParseKind;
    if ty in {"agent.status.changed", "agent.status.idle", "agent.status.active", "agent.status.blocked"} { FirstPresence(ty); }
    else { SecondPresence(ty); }
  }

  lemma FirstPresence(ty: string)
    requires ty in {"agent.status.changed", "agent.status.idle", "agent.status.active", "agent.status.blocked"}
    ensures ParseKind(ty) == Some(Presence)
  {
  }

  lemma SecondPresence(ty: string)
    requires ty in {"agent.status.waiting", "agent.status.offline", "user.online", "user.offline"}
    ensures ParseKind(ty) == Some(Presence)
  {
  }

  lemma ParsedPresence(ty: string)
    requires ParseKind(ty) == Some(Presence)
    ensures TypeNames(ty, Presence)
  {
  }

  ghost predicate ConversationNamed(v: Value) {
    exists s :: Picks(v, AllOver(["conversation_id"], NonBlank), Some(s))
  }

  /** A channel message without a channel but in a conversation is a direct message. */
  ghost predicate KindMeans(v: Value, ty: string, kind: Kind) {
    exists named :: TypeNames(ty, named)
      && kind == if named.MessageCreated? && Picks(v, ChannelCandidates(), None) && ConversationNamed(v) then DmReceived else named
  }

  lemma KindPicks(v: Value, ty: string)
    requires ParseKind(ty).Some?
    ensures KindMeans(v, ty, EffectiveKind(v, ParseKind(ty).value))
  {
    hide Picks, ParseKind, First, AllOver, Everywhere, TypeNames;
    var named := ParseKind(ty).value;
    TypesAreParsed(ty, named);
    DestinationsPick(v);
    EverywherePicks(v, ["conversation_id"], NON_BLANK, false);
    var raw, conv := First(v, Everywhere(["channel"]), SCALAR, true), First(v, Everywhere(["conversation_id"]), NON_BLANK, false);
    if Picks(v, ChannelCandidates(), None) { PicksOnce(v, ChannelCandidates(), raw, None); }
    if conv.None? && ConversationNamed(v) {
      var s :| Picks(v, AllOver(["conversation_id"], NonBlank), Some(s));
      PicksOnce(v, AllOver(["conversation_id"], NonBlank), conv, Some(s));
    }
  }

  ghost predicate MessageMeans(v: Value, ty: string, n: Normalized, synth: Synthesis) {
    && SenderMeans(v, n.from)
    && Picks(v, AgentIdCandidates(), n.senderAgentId)
    && SenderKindMeans(v, n.senderKind)
    && TargetMeans(v, n.kind, n.target)
    && (exists text :: (Picks(v, TextCandidates(), text) && n.text == text.GetOr("")))
    && Picks(v, ThreadCandidates(), n.threadId)
    && (exists id :: (Picks(v, IdCandidates(), id)
          && n.eventId == id.GetOr(synth(ty, n.from, n.target, n.text, n.threadId.GetOr("")))))
    && n.priority == if n.kind.DmReceived? then P2 else P3
  }

  ghost predicate PresenceMeans(v: Value, ty: string, n: Normalized) {
    exists who :: (Picks(v, PresenceCandidates(), who)
      && n == Normalized("presence-" + ty + "-" + who.GetOr("unknown"), n.kind, who.GetOr("unknown"), None, Agent, "", "", None, P4))
  }

  /** A reaction reads the top of the event only. */
  ghost predicate ReactionMeans(v: Value, n: Normalized) {
    exists who, emoji, id, channel ::
      (Picks(v, In([], ["agent_name"], AnyScalar), who) && Picks(v, In([], ["emoji"], AnyScalar), emoji)
       && Picks(v, In([], ["message_id"], AnyScalar), id) && Picks(v, In([], ["channel_name"], FullScalar), Some(channel))
       && n.from == who.GetOr("unknown") && n.target == WithHash(channel)
       && n.eventId == "reaction-" + id.GetOr("") + "-" + n.from + "-" + emoji.GetOr("?")
       && n.text == ":" + emoji.GetOr("?") + ": reaction from " + n.from + " on message " + id.GetOr("") + " (informational; no response required)"
       && n.senderAgentId == None && n.senderKind.Agent? && n.threadId == None && n.priority.P4?)
  }

  /** Some object message is there, at the top or in the payload. */
  ghost predicate HasObjectMessage(v: Value) {
    || (Reach(v, ["message"]).Some? && Reach(v, ["message"]).value.Object?)
    || (Reach(v, ["payload", "message"]).Some? && Reach(v, ["payload", "message"]).value.Object?)
  }

  /** Whether an event of this kind says enough to be normalized. */
  ghost predicate SaysEnough(v: Value, kind: Kind) {
    match kind
    case Presence => true
    case ReactionReceived => !Picks(v, In([], ["channel_name"], FullScalar), None)
    case _ => HasObjectMessage(v) || !Picks(v, TextCandidates(), None)
  }

  lemma DescribedMeans(v: Value, ty: string, kind: Kind, synth: Synthesis)
    requires !kind.ReactionReceived? && Describe(v, ty, kind, synth).Some?
    ensures var n := Describe(v, ty, kind, synth).value;
      n.kind == kind && if kind.Presence? then PresenceMeans(v, ty, n) else MessageMeans(v, ty, n, synth)
  {
    hide Picks, First, Text, Target, Sender, SenderKindOf, PresenceSender, HasMessage, SenderMeans, TargetMeans, SenderKindMeans;
    hide TextCandidates, IdCandidates, AgentIdCandidates, ThreadCandidates, PresenceCandidates;
    PresencePicks(v);
    SenderPicks(v);
    TargetPicks(v, kind);
    SenderKindPicks(v);
    TextPicks(v);
    IdsPick(v);
  }

  lemma MessageObject(v: Value)
    ensures HasMessage(v) <==> HasObjectMessage(v)
  {
    assert ["message"][1..] == [] && ["payload", "message"][1..] == ["message"];
    assert forall x: Value :: Reach(x, ["message"]) == Get(Some(x), "message");
  }

  lemma DescribedIff(v: Value, ty: string, kind: Kind, synth: Synthesis)
    requires !kind.ReactionReceived?
    ensures Describe(v, ty, kind, synth).Some? <==> SaysEnough(v, kind)
  {
    hide Picks, First, Text, Target, Sender, SenderKindOf, PresenceSender, HasMessage, HasObjectMessage, TextCandidates;
    MessageObject(v);
    TextPicks(v);
    if Picks(v, TextCandidates(), None) { PicksOnce(v, TextCandidates(), Text(v), None); }
  }

  lemma TopPicks(v: Value, key: string, nonEmpty: bool)
    ensures Picks(v, In([], [key], if nonEmpty then FullScalar else AnyScalar), First(v, [(Top, key)], SCALAR, nonEmpty))
  {
    hide Picks, First, In;
    PlacePicks(v, Top, [key], SCALAR, nonEmpty);
    assert Rows(Top, [key]) == [(Top, key)];
  }

  lemma ReactionPicks(v: Value)
    ensures Reaction(v).Some? <==> SaysEnough(v, ReactionReceived)
    ensures Reaction(v).Some? ==> Reaction(v).value.kind.ReactionReceived? && ReactionMeans(v, Reaction(v).value)
  {
    hide Picks, First, In;
    TopPicks(v, "agent_name", false);
    TopPicks(v, "emoji", false);
    TopPicks(v, "message_id", false);
    TopPicks(v, "channel_name", true);
    FirstOfOne(v, Top, "channel_name", SCALAR, false);
    FirstOfOne(v, Top, "channel_name", SCALAR, true);
    var channel := First(v, [(Top, "channel_name")], SCALAR, true);
    if Picks(v, In([], ["channel_name"], FullScalar), None) {
      PicksOnce(v, In([], ["channel_name"], FullScalar), channel, None);
    }
  }

  /** The meaning of every normalized event, field by field. */
  lemma NormalizedMeans(v: Value, synth: Synthesis)
    requires Normalize(v, synth).Some?
    ensures var n := Normalize(v, synth).value;
      exists ty :: (Reach(v, ["type"]) == Some(String(ty)) && KindMeans(v, ty, n.kind)
        && match n.kind
           case Presence => PresenceMeans(v, ty, n)
           case ReactionReceived => ReactionMeans(v, n)
           case _ => MessageMeans(v, ty, n, synth))
  {
    hide Describe, Reaction, ParseKind, EffectiveKind, KindMeans, PresenceMeans, ReactionMeans, MessageMeans, Reach;
    FieldIsReached(v, Top, "type");
    assert PathOf(Top) + ["type"] == ["type"];
    var ty := AsStr(Field(v, Top, "type")).value;
    KindPicks(v, ty);
    var kind := EffectiveKind(v, ParseKind(ty).value);
    if kind.ReactionReceived? { ReactionPicks(v); } else { DescribedMeans(v, ty, kind, synth); }
    assert Reach(v, ["type"]) == Some(String(ty));
  }

  /** Exactly the events of a known type that say enough are normalized. */
  lemma NormalizedIff(v: Value, synth: Synthesis)
    ensures Normalize(v, synth).Some? <==>
      exists ty, kind :: (Reach(v, ["type"]) == Some(String(ty)) && KindMeans(v, ty, kind) && SaysEnough(v, kind))
  {
    hide Describe, Reaction, ParseKind, EffectiveKind, KindMeans, Reach, SaysEnough, TypeNames;
    FieldIsReached(v, Top, "type");
    assert PathOf(Top) + ["type"] == ["type"];
    var t := AsStr(Field(v, Top, "type"));
    if t.Some? && ParseKind(t.value).Some? {
      KindPicks(v, t.value);
      var kind := EffectiveKind(v, ParseKind(t.value).value);
      if kind.ReactionReceived? { ReactionPicks(v); } else { DescribedIff(v, t.value, kind, synth); }
      forall other | KindMeans(v, t.value, other) ensures other == kind { KindOnce(v, t.value, kind, other); }
    } else if t.Some? {
      forall kind ensures !KindMeans(v, t.value, kind) { UnknownType(v, t.value, kind); }
    }
  }

  lemma KindOnce(v: Value, ty: string, a: Kind, b: Kind)
    requires KindMeans(v, ty, a) && KindMeans(v, ty, b)
    ensures a == b
  {
    hide Picks, ParseKind, TypeNames, ConversationNamed;
    forall x, y | TypeNames(ty, x) && TypeNames(ty, y) ensures x == y {
      TypesAreParsed(ty, x);
      TypesAreParsed(ty, y);
    }
  }

  lemma UnknownType(v: Value, ty: string, kind: Kind)
    requires ParseKind(ty).None?
    ensures !KindMeans(v, ty, kind)
  {
    hide ParseKind, TypeNames, Picks, ConversationNamed;
    forall x ensures !TypeNames(ty, x) { TypesAreParsed(ty, x); }
  }
}
