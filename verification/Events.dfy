/** Normalizing inbound WebSocket events (packages/sdk-rust/src/events.rs).

    The parser looks fields up in ordered tables over four places of an event: the event itself,
    its `message`, its `payload`, and the payload's `message`.  The promise behind those tables
    is that an event means the same whether its fields are at the top or wrapped in `payload`. */
module Events {
  import opened Wrappers
  import opened Strings

  /** A JSON value; a number is kept as its text, all the parser ever uses of it. */
  datatype Value =
    | Null
    | Bool(bit: bool)
    | Number(text: string)
    | String(str: string)
    | Array(items: seq<Value>)
    | Object(fields: map<string, Value>)

  datatype Kind = MessageCreated | DmReceived | ThreadReply | GroupDmReceived | Presence | ReactionReceived
  datatype SenderKind = Human | Agent | Unknown
  datatype Priority = P2 | P3 | P4

  datatype Normalized = Normalized(
    eventId: string, kind: Kind, from: string, senderAgentId: Option<string>, senderKind: SenderKind,
    target: string, text: string, threadId: Option<string>, priority: Priority)

  /** `synth_event_id`: a hash of type, sender, target, text and thread, kept uninterpreted. */
  type Synthesis = (string, string, string, string, string) -> string

  // ---- values ---------------------------------------------------------------------------

  function Get(v: Option<Value>, key: string): Option<Value> {
    if v.Some? && v.value.Object? && key in v.value.fields then Some(v.value.fields[key]) else None
  }

  function AsStr(v: Option<Value>): Option<string> {
    if v.Some? && v.value.String? then Some(v.value.str) else None
  }

  function Scalar(v: Value): Option<string> {
    match v
    case String(s) => Some(s)
    case Number(t) => Some(t)
    case _ => None
  }

  /** The first non-empty scalar among some fields of an object. */
  function FirstField(fields: map<string, Value>, keys: seq<string>): Option<string> {
    if keys == [] then None
    else if keys[0] in fields && Scalar(fields[keys[0]]).Some? && Scalar(fields[keys[0]]).value != ""
      then Scalar(fields[keys[0]])
    else FirstField(fields, keys[1..])
  }

  function SenderValue(v: Value): Option<string> {
    if Scalar(v).Some? then Scalar(v)
    else if v.Object? then FirstField(v.fields, ["name", "display_name", "username", "handle", "id"])
    else None
  }

  // ---- the accessor ---------------------------------------------------------------------

  datatype Nesting = Top | Message | Payload | PayloadMessage

  function Nested(v: Value, n: Nesting): Option<Value> {
    match n
    case Top => Some(v)
    case Message => Get(Some(v), "message")
    case Payload => Get(Some(v), "payload")
    case PayloadMessage => Get(Get(Some(v), "payload"), "message")
  }

  function Field(v: Value, n: Nesting, key: string): Option<Value> {
    Get(Nested(v, n), key)
  }

  type Table = seq<(Nesting, string)>

  /** The rows of a table for one nesting. */
  function Rows(n: Nesting, keys: seq<string>): Table {
    seq(|keys|, i requires 0 <= i < |keys| => (n, keys[i]))
  }

  /** How a looked-up field is read as a string. */
  datatype Reading = SCALAR | SENDER | AGENT_NAME | NON_BLANK

  function Read(how: Reading, v: Option<Value>): Option<string> {
    match how
    case SCALAR => if v.Some? then Scalar(v.value) else None
    case SENDER => if v.Some? then SenderValue(v.value) else None
    case AGENT_NAME => if Get(v, "name").Some? then Scalar(Get(v, "name").value) else None
    case NON_BLANK => if AsStr(v).Some? && Trim(AsStr(v).value) != "" then AsStr(v) else None
  }

  /** `first_string`: the first row whose field reads as a string (non-empty, if asked). */
  function First(v: Value, table: Table, read: Reading, nonEmpty: bool): Option<string> {
    if table == [] then None
    else
      var found := Read(read, Field(v, table[0].0, table[0].1));
      if found.Some? && (nonEmpty ==> found.value != "") then found
      else First(v, table[1..], read, nonEmpty)
  }

  function OrElse(a: Option<string>, b: Option<string>): Option<string> {
    if a.Some? then a else b
  }

  // ---- the tables -----------------------------------------------------------------------

  const SENDER_KEYS := ["from", "sender", "author", "from_agent", "agent", "agent_name"]
  const TARGET_KEYS := ["target", "to", "recipient", "to_agent", "recipient_agent"]
  const ID_KEYS := ["event_id", "message_id", "id"]
  const TEXT_KEYS := ["text", "body", "content"]
  const KIND_KEYS := ["from_type", "sender_type", "actor_type", "source_type", "origin_type", "sender_kind"]

  /** The same keys at the top, in the message, in the payload, in the payload's message. */
  function Everywhere(keys: seq<string>): Table {
    Rows(Top, keys) + Rows(Message, keys) + (Rows(Payload, keys) + Rows(PayloadMessage, keys))
  }

  function TopAndPayload(keys: seq<string>): Table {
    Rows(Top, keys) + Rows(Payload, keys)
  }

  const AGENT_ID_TABLE: Table :=
    Rows(Message, ["agent_id"]) + Rows(PayloadMessage, ["agent_id"]) + (Rows(Top, ["agent_id"]) + Rows(Payload, ["agent_id"]))

  const THREAD_TABLE: Table :=
    Rows(Top, ["parent_id", "thread_id"]) + Rows(Message, ["thread_id"])
    + (Rows(Payload, ["parent_id", "thread_id"]) + Rows(PayloadMessage, ["thread_id"]))

  // ---- extraction -----------------------------------------------------------------------

  function ParseKind(t: string): Option<Kind> {
    if t in ["message.created", "message.received", "message.new", "message.sent", "message.delivered"] then Some(MessageCreated)
    else if t in ["dm.received", "dm.created", "dm.new", "dm.sent", "dm.message.created", "direct_message.received",
                  "direct_message.created", "direct_message.new", "direct_message.sent"] then Some(DmReceived)
    else if t in ["thread.reply", "thread.message.created", "thread.message.sent"] then Some(ThreadReply)
    else if t in ["group_dm.received", "group_dm.created", "group_dm.new", "group_dm.sent", "group_dm.message.created"]
      then Some(GroupDmReceived)
    else if t in ["agent.status.changed", "agent.status.idle", "agent.status.active", "agent.status.blocked",
                  "agent.status.waiting", "agent.status.offline", "user.online", "user.offline"] then Some(Presence)
    else if t == "message.reacted" then Some(ReactionReceived)
    else None
  }

  function Hash(channel: string): string {
    if channel != "" && channel[0] == '#' then channel else "#" + channel
  }

  function Channel(v: Value): Option<string> {
    var raw := First(v, Everywhere(["channel"]), SCALAR, true);
    if raw.Some? then Some(Hash(raw.value)) else None
  }

  predicate HasConversation(v: Value) {
    First(v, Everywhere(["conversation_id"]), NON_BLANK, false).Some?
  }

  function Text(v: Value): Option<string> {
    OrElse(First(v, Everywhere(TEXT_KEYS), SCALAR, false),
      OrElse(AsStr(Field(v, Top, "message")), AsStr(Field(v, Payload, "message"))))
  }

  function PresenceSender(v: Value): Option<string> {
    OrElse(First(v, TopAndPayload(["agent"]), AGENT_NAME, true),
      OrElse(First(v, TopAndPayload(["agent_name"]), SCALAR, true),
        First(v, TopAndPayload(["from"]), SCALAR, true)))
  }

  predicate StartsWith(s: string, prefix: string) {
    prefix <= s
  }

  function NormalizeSender(raw: string): string {
    if raw == "broker" || StartsWith(raw, "broker-") || StartsWith(raw, "human:") then "Dashboard" else raw
  }

  function Sender(v: Value): Option<string> {
    var raw := OrElse(First(v, Rows(Top, ["agent"]), AGENT_NAME, true),
      OrElse(First(v, Rows(Top, SENDER_KEYS), SENDER, true),
        OrElse(First(v, Rows(Message, SENDER_KEYS), SENDER, true),
          OrElse(First(v, Rows(Payload, ["agent"]), AGENT_NAME, true),
            OrElse(First(v, Rows(Payload, SENDER_KEYS), SENDER, true),
              First(v, Rows(PayloadMessage, SENDER_KEYS), SENDER, true))))));
    if raw.Some? then Some(NormalizeSender(raw.value)) else None
  }

  function Target(v: Value, kind: Kind): Option<string> {
    var explicit := First(v, Everywhere(TARGET_KEYS), SENDER, true);
    var direct := if kind.DmReceived? || kind.GroupDmReceived?
                  then OrElse(explicit, First(v, TopAndPayload(["conversation_id"]), SCALAR, true)) else None;
    OrElse(direct,
      OrElse(Channel(v),
        OrElse(explicit,
          OrElse(First(v, Everywhere(["conversation_id"]), SCALAR, true),
            if kind.ThreadReply? then Some("thread") else None))))
  }

  function Label(raw: string): Option<SenderKind> {
    var l := Lower(Trim(raw));
    if l in ["human", "user"] then Some(Human) else if l in ["agent", "bot", "assistant"] then Some(Agent) else None
  }

  /** The first row whose string is a known sender label. */
  function FirstLabel(v: Value, table: Table): Option<SenderKind> {
    if table == [] then None
    else
      var s := AsStr(Field(v, table[0].0, table[0].1));
      if s.Some? && Label(s.value).Some? then Label(s.value) else FirstLabel(v, table[1..])
  }

  function ContainerLabel(v: Option<Value>, containers: seq<string>): Option<SenderKind> {
    if containers == [] then None
    else
      var c := Get(v, containers[0]);
      var t := if Get(c, "type").Some? then Get(c, "type")
               else if Get(c, "kind").Some? then Get(c, "kind") else Get(c, "role");
      var s := AsStr(t);
      if s.Some? && Label(s.value).Some? then Label(s.value) else ContainerLabel(v, containers[1..])
  }

  function FirstContainer(v: Value, nestings: seq<Nesting>): Option<SenderKind> {
    if nestings == [] then None
    else
      var k := ContainerLabel(Nested(v, nestings[0]), ["from", "sender", "author"]);
      if k.Some? then k else FirstContainer(v, nestings[1..])
  }

  function SenderKindOf(v: Value): SenderKind {
    var byField := FirstLabel(v, Everywhere(KIND_KEYS));
    var byContainer := FirstContainer(v, [Top, Message, Payload, PayloadMessage]);
    if byField.Some? then byField.value else byContainer.GetOr(Unknown)
  }

  predicate HasMessage(v: Value) {
    var m, pm := Nested(v, Message), Nested(v, PayloadMessage);
    (m.Some? && m.value.Object?) || (pm.Some? && pm.value.Object?)
  }

  function Reaction(v: Value): Option<Normalized> {
    var from := First(v, [(Top, "agent_name")], SCALAR, false).GetOr("unknown");
    var emoji := First(v, [(Top, "emoji")], SCALAR, false).GetOr("?");
    var messageId := First(v, [(Top, "message_id")], SCALAR, false).GetOr("");
    var channel := First(v, [(Top, "channel_name")], SCALAR, false).GetOr("");
    if channel == "" then None
    else Some(Normalized("reaction-" + messageId + "-" + from + "-" + emoji, ReactionReceived, from, None, Agent, Hash(channel),
      ":" + emoji + ": reaction from " + from + " on message " + messageId + " (informational; no response required)", None, P4))
  }

  /** The kind an event is treated as: a channel-less message in a conversation is direct. */
  function EffectiveKind(v: Value, kind: Kind): Kind {
    if kind.MessageCreated? && Channel(v).None? && HasConversation(v) then DmReceived else kind
  }

  /** Everything after the kind is known, for events other than reactions. */
  function Describe(v: Value, eventType: string, kind: Kind, synth: Synthesis): Option<Normalized> {
    if kind.Presence? then
      var from := PresenceSender(v).GetOr("unknown");
      Some(Normalized("presence-" + eventType + "-" + from, kind, from, None, Agent, "", "", None, P4))
    else if !HasMessage(v) && Text(v).None? then None
    else
      var from := Sender(v).GetOr("unknown");
      var target := Target(v, kind).GetOr("unknown");
      var text := Text(v).GetOr("");
      var thread := First(v, THREAD_TABLE, SCALAR, true);
      var id := First(v, Everywhere(ID_KEYS), SCALAR, true).GetOr(synth(eventType, from, target, text, thread.GetOr("")));
      Some(Normalized(id, kind, from, First(v, AGENT_ID_TABLE, SCALAR, true), SenderKindOf(v), target, text, thread,
                      if kind.DmReceived? then P2 else P3))
  }

  function Normalize(v: Value, synth: Synthesis): Option<Normalized> {
    var t := AsStr(Field(v, Top, "type"));
    if t.None? || ParseKind(t.value).None? then None
    else
      var kind := EffectiveKind(v, ParseKind(t.value).value);
      if kind.ReactionReceived? then Reaction(v) else Describe(v, t.value, kind, synth)
  }

  // ---- wrapping -------------------------------------------------------------------------

  /** An event whose fields are not yet wrapped. */
  predicate Flat(v: Value) {
    v.Object? && "payload" !in v.fields
  }

  /** Move every field except `type` under `payload`. */
  function Wrap(v: Value): Value
    requires Flat(v)
  {
    var inner := map["payload" := Object(v.fields - {"type"})];
    Object(if "type" in v.fields then inner["type" := v.fields["type"]] else inner)
  }

  /** Where a place of the flat event is found after wrapping. */
  function Shift(n: Nesting): Nesting {
    match n
    case Top => Payload
    case Message => PayloadMessage
    case _ => n
  }

  predicate Inner(n: Nesting) {
    n.Payload? || n.PayloadMessage?
  }

  /** Apart from `type`, wrapping moves every lookup one level down and leaves nothing above. */
  lemma WrapMovesFields(v: Value, n: Nesting, key: string)
    requires Flat(v) && key !in {"type", "payload"}
    ensures Inner(n) ==> Field(v, n, key) == None
    ensures !Inner(n) ==> Field(Wrap(v), Shift(n), key) == Field(v, n, key)
    ensures n == Message || (n == Top && key != "message") ==> Field(Wrap(v), n, key) == None
    ensures Field(Wrap(v), Top, key) == None
  {
  }

  ghost predicate Plain(table: Table) {
    forall i :: 0 <= i < |table| ==> table[i].1 !in {"type", "payload"}
  }

  ghost predicate AllInner(table: Table, inner: bool) {
    forall i :: 0 <= i < |table| ==> Inner(table[i].0) == inner
  }

  function Shifted(table: Table): Table {
    seq(|table|, i requires 0 <= i < |table| => (Shift(table[i].0), table[i].1))
  }

  lemma {:induction false} FirstOfConcat(v: Value, a: Table, b: Table, read: Reading, nonEmpty: bool)
    ensures First(v, a + b, read, nonEmpty) == OrElse(First(v, a, read, nonEmpty), First(v, b, read, nonEmpty))
  {
    if a == [] { assert a + b == b; } else {
      FirstOfConcat(v, a[1..], b, read, nonEmpty);
      assert (a + b)[1..] == a[1..] + b;
    }
  }

  lemma {:induction false} FirstMoves(v: Value, table: Table, read: Reading, nonEmpty: bool)
    requires Flat(v) && Plain(table) && AllInner(table, false)
    ensures First(Wrap(v), Shifted(table), read, nonEmpty) == First(v, table, read, nonEmpty)
    ensures First(Wrap(v), table, read, nonEmpty) == None
    ensures First(v, Shifted(table), read, nonEmpty) == None
  {
    if table != [] {
      WrapMovesFields(v, table[0].0, table[0].1);
      WrapMovesFields(v, Shift(table[0].0), table[0].1);
      FirstMoves(v, table[1..], read, nonEmpty);
      assert Shifted(table)[1..] == Shifted(table[1..]);
    }
  }

  /** A table of outer rows followed by the same rows one level down finds the same string in
      the flat event and in the wrapped one. */
  lemma PairedTableAgrees(v: Value, table: Table, read: Reading, nonEmpty: bool)
    requires Flat(v) && Plain(table) && AllInner(table, false)
    ensures First(Wrap(v), table + Shifted(table), read, nonEmpty) == First(v, table + Shifted(table), read, nonEmpty)
  {
    FirstMoves(v, table, read, nonEmpty);
    FirstOfConcat(v, table, Shifted(table), read, nonEmpty);
    FirstOfConcat(Wrap(v), table, Shifted(table), read, nonEmpty);
  }

  ghost predicate PlainKeys(keys: seq<string>) {
    forall i :: 0 <= i < |keys| ==> keys[i] !in {"type", "payload"}
  }

  lemma EverywhereAgrees(v: Value, keys: seq<string>, read: Reading, nonEmpty: bool)
    requires Flat(v) && PlainKeys(keys)
    ensures First(Wrap(v), Everywhere(keys), read, nonEmpty) == First(v, Everywhere(keys), read, nonEmpty)
  {
    var outer := Rows(Top, keys) + Rows(Message, keys);
    assert Shifted(outer) == Rows(Payload, keys) + Rows(PayloadMessage, keys);
    PairedTableAgrees(v, outer, read, nonEmpty);
  }

  lemma TopAndPayloadAgrees(v: Value, keys: seq<string>, read: Reading, nonEmpty: bool)
    requires Flat(v) && PlainKeys(keys)
    ensures First(Wrap(v), TopAndPayload(keys), read, nonEmpty) == First(v, TopAndPayload(keys), read, nonEmpty)
  {
    assert Shifted(Rows(Top, keys)) == Rows(Payload, keys);
    PairedTableAgrees(v, Rows(Top, keys), read, nonEmpty);
  }

  lemma ThreadAgrees(v: Value)
    requires Flat(v)
    ensures First(Wrap(v), THREAD_TABLE, SCALAR, true) == First(v, THREAD_TABLE, SCALAR, true)
  {
    var outer := Rows(Top, ["parent_id", "thread_id"]) + Rows(Message, ["thread_id"]);
    assert Shifted(outer) == Rows(Payload, ["parent_id", "thread_id"]) + Rows(PayloadMessage, ["thread_id"]);
    PairedTableAgrees(v, outer, SCALAR, true);
  }

  /** The agent id is looked up in the messages before the events, each pair agreeing. */
  lemma AgentIdAgrees(v: Value)
    requires Flat(v)
    ensures First(Wrap(v), AGENT_ID_TABLE, SCALAR, true) == First(v, AGENT_ID_TABLE, SCALAR, true)
  {
    var m, t := Rows(Message, ["agent_id"]), Rows(Top, ["agent_id"]);
    assert Shifted(m) == Rows(PayloadMessage, ["agent_id"]) && Shifted(t) == Rows(Payload, ["agent_id"]);
    PairedTableAgrees(v, m, SCALAR, true);
    PairedTableAgrees(v, t, SCALAR, true);
    FirstOfConcat(v, m + Shifted(m), t + Shifted(t), SCALAR, true);
    FirstOfConcat(Wrap(v), m + Shifted(m), t + Shifted(t), SCALAR, true);
  }

  lemma TextAgrees(v: Value)
    requires Flat(v)
    ensures Text(Wrap(v)) == Text(v) && HasMessage(Wrap(v)) == HasMessage(v)
  {
    EverywhereAgrees(v, TEXT_KEYS, SCALAR, false);
  }

  lemma ChannelAgrees(v: Value)
    requires Flat(v)
    ensures Channel(Wrap(v)) == Channel(v) && HasConversation(Wrap(v)) == HasConversation(v)
  {
    EverywhereAgrees(v, ["channel"], SCALAR, true);
    EverywhereAgrees(v, ["conversation_id"], NON_BLANK, false);
  }

  lemma TargetAgrees(v: Value, kind: Kind)
    requires Flat(v)
    ensures Target(Wrap(v), kind) == Target(v, kind)
  {
    hide First, Everywhere, TopAndPayload;
    ChannelAgrees(v);
    EverywhereAgrees(v, TARGET_KEYS, SENDER, true);
    EverywhereAgrees(v, ["conversation_id"], SCALAR, true);
    TopAndPayloadAgrees(v, ["conversation_id"], SCALAR, true);
  }

  lemma PresenceAgrees(v: Value)
    requires Flat(v)
    ensures PresenceSender(Wrap(v)) == PresenceSender(v)
  {
    hide First, TopAndPayload;
    TopAndPayloadAgrees(v, ["agent"], AGENT_NAME, true);
    TopAndPayloadAgrees(v, ["agent_name"], SCALAR, true);
    TopAndPayloadAgrees(v, ["from"], SCALAR, true);
  }

  lemma RowsMove(v: Value, n: Nesting, keys: seq<string>, read: Reading)
    requires Flat(v) && PlainKeys(keys) && !Inner(n)
    ensures First(Wrap(v), Rows(Shift(n), keys), read, true) == First(v, Rows(n, keys), read, true)
    ensures First(Wrap(v), Rows(n, keys), read, true) == None
    ensures First(v, Rows(Shift(n), keys), read, true) == None
  {
    assert Shifted(Rows(n, keys)) == Rows(Shift(n), keys);
    FirstMoves(v, Rows(n, keys), read, true);
  }

  lemma SenderAgrees(v: Value)
    requires Flat(v)
    ensures Sender(Wrap(v)) == Sender(v)
  {
    hide First, Rows, Wrap;
    RowsMove(v, Top, ["agent"], AGENT_NAME);
    RowsMove(v, Top, SENDER_KEYS, SENDER);
    RowsMove(v, Message, SENDER_KEYS, SENDER);
  }

  lemma {:induction false} FirstLabelOfConcat(v: Value, a: Table, b: Table)
    ensures FirstLabel(v, a + b) == if FirstLabel(v, a).Some? then FirstLabel(v, a) else FirstLabel(v, b)
  {
    if a == [] { assert a + b == b; } else {
      FirstLabelOfConcat(v, a[1..], b);
      assert (a + b)[1..] == a[1..] + b;
    }
  }

  lemma {:induction false} FirstLabelMoves(v: Value, table: Table)
    requires Flat(v) && Plain(table) && AllInner(table, false)
    ensures FirstLabel(Wrap(v), Shifted(table)) == FirstLabel(v, table)
    ensures FirstLabel(Wrap(v), table) == None
    ensures FirstLabel(v, Shifted(table)) == None
  {
    if table != [] {
      WrapMovesFields(v, table[0].0, table[0].1);
      WrapMovesFields(v, Shift(table[0].0), table[0].1);
      FirstLabelMoves(v, table[1..]);
      assert Shifted(table)[1..] == Shifted(table[1..]);
    }
  }

  lemma {:induction false} ContainersMove(v: Value, w: Value, n: Nesting, m: Nesting, containers: seq<string>)
    requires forall i :: 0 <= i < |containers| ==> Field(v, n, containers[i]) == Field(w, m, containers[i])
    ensures ContainerLabel(Nested(v, n), containers) == ContainerLabel(Nested(w, m), containers)
  {
    if containers != [] { ContainersMove(v, w, n, m, containers[1..]); }
  }

  lemma {:induction false} NoContainers(v: Value, n: Nesting, containers: seq<string>)
    requires forall i :: 0 <= i < |containers| ==> Field(v, n, containers[i]) == None
    ensures ContainerLabel(Nested(v, n), containers) == None
  {
    if containers != [] { NoContainers(v, n, containers[1..]); }
  }

  lemma ContainerAgrees(v: Value, n: Nesting)
    requires Flat(v) && !Inner(n)
    ensures var c := ["from", "sender", "author"];
            && ContainerLabel(Nested(Wrap(v), Shift(n)), c) == ContainerLabel(Nested(v, n), c)
            && ContainerLabel(Nested(Wrap(v), n), c) == None && ContainerLabel(Nested(v, Shift(n)), c) == None
  {
    var c := ["from", "sender", "author"];
    forall i | 0 <= i < |c|
      ensures Field(Wrap(v), Shift(n), c[i]) == Field(v, n, c[i])
      ensures Field(Wrap(v), n, c[i]) == None && Field(v, Shift(n), c[i]) == None
    {
      WrapMovesFields(v, n, c[i]);
      WrapMovesFields(v, Shift(n), c[i]);
    }
    ContainersMove(Wrap(v), v, Shift(n), n, c);
    NoContainers(Wrap(v), n, c);
    NoContainers(v, Shift(n), c);
  }

  lemma ContainersOf(v: Value)
    ensures var c := ["from", "sender", "author"];
            var t, m := ContainerLabel(Nested(v, Top), c), ContainerLabel(Nested(v, Message), c);
            var p, q := ContainerLabel(Nested(v, Payload), c), ContainerLabel(Nested(v, PayloadMessage), c);
            FirstContainer(v, [Top, Message, Payload, PayloadMessage])
            == if t.Some? then t else if m.Some? then m else if p.Some? then p else q
  {
    hide ContainerLabel, Nested;
    assert [Top, Message, Payload, PayloadMessage][1..] == [Message, Payload, PayloadMessage];
    assert [Message, Payload, PayloadMessage][1..] == [Payload, PayloadMessage];
    assert [Payload, PayloadMessage][1..] == [PayloadMessage];
    var q := ContainerLabel(Nested(v, PayloadMessage), ["from", "sender", "author"]);
    assert FirstContainer(v, [PayloadMessage]) == q by {
      assert [PayloadMessage][1..] == [];
      assert FirstContainer(v, []) == None;
    }
    var p := ContainerLabel(Nested(v, Payload), ["from", "sender", "author"]);
    assert FirstContainer(v, [Payload, PayloadMessage]) == if p.Some? then p else q;
  }

  lemma SenderKindAgrees(v: Value)
    requires Flat(v)
    ensures SenderKindOf(Wrap(v)) == SenderKindOf(v)
  {
    var outer := Rows(Top, KIND_KEYS) + Rows(Message, KIND_KEYS);
    assert Shifted(outer) == Rows(Payload, KIND_KEYS) + Rows(PayloadMessage, KIND_KEYS);
    FirstLabelMoves(v, outer);
    FirstLabelOfConcat(v, outer, Shifted(outer));
    FirstLabelOfConcat(Wrap(v), outer, Shifted(outer));
    ContainersAgree(v);
  }

  lemma ContainersAgree(v: Value)
    requires Flat(v)
    ensures FirstContainer(Wrap(v), [Top, Message, Payload, PayloadMessage]) == FirstContainer(v, [Top, Message, Payload, PayloadMessage])
  {
    hide ContainerLabel, Nested, Wrap, FirstContainer;
    ContainersOf(v);
    ContainersOf(Wrap(v));
    ContainerAgrees(v, Top);
    ContainerAgrees(v, Message);
  }

  lemma DescribeAgrees(v: Value, eventType: string, kind: Kind, synth: Synthesis)
    requires Flat(v)
    ensures Describe(Wrap(v), eventType, kind, synth) == Describe(v, eventType, kind, synth)
  {
    hide First, Text, HasMessage, Sender, Target, SenderKindOf, PresenceSender, Wrap, Everywhere;
    TextAgrees(v);
    PresenceAgrees(v);
    SenderAgrees(v);
    TargetAgrees(v, kind);
    ThreadAgrees(v);
    AgentIdAgrees(v);
    SenderKindAgrees(v);
    EverywhereAgrees(v, ID_KEYS, SCALAR, true);
  }

  lemma FirstOfOne(v: Value, n: Nesting, key: string, read: Reading, nonEmpty: bool)
    ensures var found := Read(read, Field(v, n, key));
            First(v, [(n, key)], read, nonEmpty) == if found.Some? && (nonEmpty ==> found.value != "") then found else None
  {
    assert [(n, key)][1..] == [];
    assert First(v, [], read, nonEmpty) == None;
  }

  lemma ReactionIsLost(v: Value)
    requires Flat(v)
    ensures Reaction(Wrap(v)) == None
  {
    WrapMovesFields(v, Top, "channel_name");
    FirstOfOne(Wrap(v), Top, "channel_name", SCALAR, false);
  }

  /** The type of a flat event is one that normalizes as a reaction. */
  predicate IsReaction(v: Value) {
    AsStr(Field(v, Top, "type")) == Some("message.reacted")
  }

  lemma ReactionType(t: string)
    ensures ParseKind(t) == Some(ReactionReceived) <==> t == "message.reacted"
  {
  }

  /** Wrapping preserves meaning: for every flat event, the wrapped event normalizes to exactly
      the same result, or to None in both cases, if and only if it is not a reaction that names
      a channel.  Reactions are read at the top only, so wrapping loses them. */
  lemma WrappingPreservesMeaning(v: Value, synth: Synthesis)
    requires Flat(v)
    ensures Normalize(Wrap(v), synth) == Normalize(v, synth)
            <==> !(IsReaction(v) && First(v, [(Top, "channel_name")], SCALAR, true).Some?)
  {
    hide Describe, Channel, HasConversation, ParseKind;
    assert Field(Wrap(v), Top, "type") == Field(v, Top, "type");
    var t := AsStr(Field(v, Top, "type"));
    if t.Some? { ReactionType(t.value); }
    if t.Some? && ParseKind(t.value).Some? {
      ChannelAgrees(v);
      var kind := EffectiveKind(v, ParseKind(t.value).value);
      if kind.ReactionReceived? {
        ReactionIsLost(v);
        FirstOfOne(v, Top, "channel_name", SCALAR, false);
        FirstOfOne(v, Top, "channel_name", SCALAR, true);
      } else {
        DescribeAgrees(v, t.value, kind, synth);
      }
    }
  }

  /** Such a reaction: normalized as it is, and to nothing when wrapped. */
  lemma WrappedReactionSaysNothing(synth: Synthesis)
    ensures var v := Object(map["type" := String("message.reacted"), "channel_name" := String("general")]);
      Flat(v) && Normalize(v, synth).Some? && Normalize(Wrap(v), synth) == None
  {
    hide Describe, Channel, HasConversation, ParseKind;
    var v := Object(map["type" := String("message.reacted"), "channel_name" := String("general")]);
    ReactionType("message.reacted");
    ReactionIsLost(v);
    FirstOfOne(v, Top, "channel_name", SCALAR, false);
    assert Field(Wrap(v), Top, "type") == Field(v, Top, "type");
  }

  /** A channel-less conversation message is direct in both shapes, never by its type alone. */
  lemma DirectByConversation(v: Value, synth: Synthesis)
    requires v.Object? && "type" in v.fields && v.fields["type"] == String("message.created")
    requires Normalize(v, synth).Some?
    ensures var n := Normalize(v, synth).value;
            && (n.kind.DmReceived? <==> Channel(v).None? && HasConversation(v))
            && (n.kind.DmReceived? <==> n.priority.P2?)
            && (n.kind.MessageCreated? <==> n.priority.P3?)
  {
    hide Describe, Channel, HasConversation;
    assert ParseKind("message.created") == Some(MessageCreated);
    DescribeKeepsKind(v, "message.created", EffectiveKind(v, MessageCreated), synth);
  }

  lemma DescribeKeepsKind(v: Value, eventType: string, kind: Kind, synth: Synthesis)
    requires kind.DmReceived? || kind.MessageCreated?
    ensures var n := Describe(v, eventType, kind, synth);
            n.Some? ==> n.value.kind == kind && n.value.priority == if kind.DmReceived? then P2 else P3
  {
  }
}
