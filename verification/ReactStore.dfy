/** The event-folding store of the React package (packages/react/src/reducer.ts and store.ts):
    channel timelines, threads and reactions.  Timestamps, presence, membership and the loading
    and error fields are not part of it. */
module ReactStore {
  import opened Wrappers
  import CanonicalJson

  // ---- data -----------------------------------------------------------------------------

  datatype Reaction = Reaction(emoji: string, count: int, agents: seq<string>)

  /** `replyCount` is `None` where it is not a finite number, as in older server answers. */
  datatype Message = Message(id: string, agentName: string, channelId: string, agentId: string, text: string,
                             threadId: Option<string>, attachments: seq<string>, replyCount: Option<int>,
                             reactions: seq<Reaction>)

  datatype Thread = Thread(parent: Option<Message>, replies: seq<Message>)

  /** A JavaScript object used as a dictionary: its rows in enumeration order. */
  datatype Row<V> = Row(key: string, value: V)

  datatype State = State(channels: seq<Row<seq<Message>>>, threads: seq<Row<Thread>>)

  datatype Event =
    | Created(channel: string, id: string, agentName: string, agentId: Option<string>, text: string, attachments: seq<string>)
    | Updated(channel: string, id: string, text: string)
    | Replied(parent: string, id: string, agentName: string, agentId: Option<string>, text: string)
    | Reacted(id: string, emoji: string, agent: string, removed: bool)

  const EMPTY := State([], [])
  const NO_THREAD := Thread(None, [])

  /** `findIndex`, with the length for a miss. */
  function FirstIndex<T>(xs: seq<T>, wanted: T -> bool): (r: nat)
    ensures r <= |xs| && (r < |xs| ==> wanted(xs[r])) && forall j :: 0 <= j < r ==> !wanted(xs[j])
  {
    if xs == [] || wanted(xs[0]) then 0 else 1 + FirstIndex(xs[1..], wanted)
  }

  // ---- dictionaries ---------------------------------------------------------------------

  function RowOf<V>(rows: seq<Row<V>>, key: string): (r: nat)
    ensures r <= |rows| && (r < |rows| ==> rows[r].key == key) && forall j :: 0 <= j < r ==> rows[j].key != key
  {
    FirstIndex(rows, (row: Row<V>) => row.key == key)
  }

  function Lookup<V>(rows: seq<Row<V>>, key: string): Option<V> {
    var i := RowOf(rows, key);
    if i < |rows| then Some(rows[i].value) else None
  }

  /** Where a new name is enumerated: array indices first, in numeric order. */
  function PlaceOf<V>(rows: seq<Row<V>>, key: string): (r: nat)
    ensures r <= |rows|
  {
    if rows == [] || (CanonicalJson.IsIndex(key) && CanonicalJson.Before(key, rows[0].key)) then 0
    else 1 + PlaceOf(rows[1..], key)
  }

  function Put<V>(rows: seq<Row<V>>, key: string, value: V): seq<Row<V>> {
    var i := RowOf(rows, key);
    if i < |rows| then rows[i := Row(key, value)]
    else rows[..PlaceOf(rows, key)] + [Row(key, value)] + rows[PlaceOf(rows, key)..]
  }

  // ---- messages -------------------------------------------------------------------------

  function IndexOf(ms: seq<Message>, id: string): (r: nat)
    ensures r <= |ms| && (r < |ms| ==> ms[r].id == id) && forall j :: 0 <= j < r ==> ms[j].id != id
  {
    FirstIndex(ms, (m: Message) => m.id == id)
  }

  predicate Has(ms: seq<Message>, id: string) {
    IndexOf(ms, id) < |ms|
  }

  function Get(ms: seq<Message>, id: string): Option<Message> {
    if Has(ms, id) then Some(ms[IndexOf(ms, id)]) else None
  }

  datatype Edit = SetText(text: string) | Bump | React(emoji: string, agent: string, removed: bool)

  function Without(agents: seq<string>, agent: string): seq<string> {
    if agents == [] then []
    else (if agents[0] == agent then [] else [agents[0]]) + Without(agents[1..], agent)
  }

  function GroupOf(rs: seq<Reaction>, emoji: string): (r: nat)
    ensures r <= |rs| && (r < |rs| ==> rs[r].emoji == emoji) && forall j :: 0 <= j < r ==> rs[j].emoji != emoji
  {
    FirstIndex(rs, (r: Reaction) => r.emoji == emoji)
  }

  function Join(rs: seq<Reaction>, emoji: string, agent: string): seq<Reaction> {
    if rs == [] then []
    else
      [if rs[0].emoji == emoji then Reaction(emoji, rs[0].count + 1, rs[0].agents + [agent]) else rs[0]]
      + Join(rs[1..], emoji, agent)
  }

  function AddReaction(rs: seq<Reaction>, emoji: string, agent: string): seq<Reaction> {
    var i := GroupOf(rs, emoji);
    if i == |rs| then rs + [Reaction(emoji, 1, [agent])]
    else if agent in rs[i].agents then rs
    else Join(rs, emoji, agent)
  }

  function Leave(r: Reaction, emoji: string, agent: string): Reaction {
    if r.emoji == emoji then Reaction(emoji, if r.count - 1 > 0 then r.count - 1 else 0, Without(r.agents, agent)) else r
  }

  /** The group without the agent, unless its count falls to zero. */
  function Remaining(r: Reaction, emoji: string, agent: string): seq<Reaction> {
    var q := Leave(r, emoji, agent);
    if q.count > 0 then [q] else []
  }

  function RemoveReaction(rs: seq<Reaction>, emoji: string, agent: string): seq<Reaction> {
    if rs == [] then [] else Remaining(rs[0], emoji, agent) + RemoveReaction(rs[1..], emoji, agent)
  }

  function Apply(m: Message, edit: Edit): Message {
    match edit
    case SetText(text) => m.(text := text)
    case Bump => m.(replyCount := Some(if m.replyCount.Some? then m.replyCount.value + 1 else 1))
    case React(emoji, agent, removed) =>
      m.(reactions := if removed then RemoveReaction(m.reactions, emoji, agent) else AddReaction(m.reactions, emoji, agent))
  }

  /** Edits the first message with the id, if there is one. */
  function EditIn(ms: seq<Message>, id: string, edit: Edit): seq<Message> {
    var i := IndexOf(ms, id);
    if i < |ms| then ms[i := Apply(ms[i], edit)] else ms
  }

  // ---- the handlers ---------------------------------------------------------------------

  function Channel(s: State, channel: string): seq<Message> {
    Lookup(s.channels, channel).GetOr([])
  }

  function ThreadOf(s: State, id: string): Thread {
    Lookup(s.threads, id).GetOr(NO_THREAD)
  }

  function SetChannel(s: State, channel: string, ms: seq<Message>): State {
    s.(channels := Put(s.channels, channel, ms))
  }

  function SetThread(s: State, id: string, t: Thread): State {
    s.(threads := Put(s.threads, id, t))
  }

  function NewMessage(e: Event): Message
    requires e.Created?
  {
    Message(e.id, e.agentName, e.channel, e.agentId.GetOr(""), e.text, None, e.attachments, Some(0), [])
  }

  function NewReply(e: Event, t: Thread): Message
    requires e.Replied?
  {
    Message(e.id, e.agentName, if t.parent.Some? then t.parent.value.channelId else "", e.agentId.GetOr(""), e.text,
            Some(e.parent), [], Some(0), [])
  }

  /** The first channel, in enumeration order, that shows the message. */
  function FirstWith(rows: seq<Row<seq<Message>>>, id: string): Option<string> {
    if rows == [] then None
    else if Has(rows[0].value, id) then Some(rows[0].key)
    else FirstWith(rows[1..], id)
  }

  function ReactInThread(t: Thread, id: string, edit: Edit): Thread {
    if Has(t.replies, id) then t.(replies := EditIn(t.replies, id, edit))
    else if t.parent.Some? && t.parent.value.id == id then t.(parent := Some(Apply(t.parent.value, edit)))
    else t
  }

  function ReactChannels(rows: seq<Row<seq<Message>>>, id: string, edit: Edit): (r: seq<Row<seq<Message>>>)
    ensures |r| == |rows| && forall i :: 0 <= i < |r| ==> r[i] == Row(rows[i].key, EditIn(rows[i].value, id, edit))
  {
    if rows == [] then [] else [Row(rows[0].key, EditIn(rows[0].value, id, edit))] + ReactChannels(rows[1..], id, edit)
  }

  function ReactThreads(rows: seq<Row<Thread>>, id: string, edit: Edit): (r: seq<Row<Thread>>)
    ensures |r| == |rows| && forall i :: 0 <= i < |r| ==> r[i] == Row(rows[i].key, ReactInThread(rows[i].value, id, edit))
  {
    if rows == [] then [] else [Row(rows[0].key, ReactInThread(rows[0].value, id, edit))] + ReactThreads(rows[1..], id, edit)
  }

  function OnCreated(s: State, e: Event): State
    requires e.Created?
  {
    var prev := Channel(s, e.channel);
    SetChannel(s, e.channel, if Has(prev, e.id) then prev else prev + [NewMessage(e)])
  }

  /** The parent kept with a thread counts up only if it has a count. */
  function BumpParent(t: Thread): Thread {
    if t.parent.Some? then
      var p := t.parent.value;
      t.(parent := Some(p.(replyCount := if p.replyCount.Some? then Some(p.replyCount.value + 1) else None)))
    else t
  }

  function BumpChannel(s: State, id: string): State {
    match FirstWith(s.channels, id)
    case None => s
    case Some(channel) => SetChannel(s, channel, EditIn(Channel(s, channel), id, Bump))
  }

  function OnReplied(s: State, e: Event): State
    requires e.Replied?
  {
    var t := ThreadOf(s, e.parent);
    if Has(t.replies, e.id) then SetThread(s, e.parent, t)
    else
      var inserted := SetThread(s, e.parent, t.(replies := t.replies + [NewReply(e, t)]));
      BumpChannel(SetThread(inserted, e.parent, BumpParent(ThreadOf(inserted, e.parent))), e.parent)
  }

  function Step(s: State, e: Event): State {
    match e
    case Created(_, _, _, _, _, _) => OnCreated(s, e)
    case Updated(channel, id, text) => SetChannel(s, channel, EditIn(Channel(s, channel), id, SetText(text)))
    case Replied(_, _, _, _, _) => OnReplied(s, e)
    case Reacted(id, emoji, agent, removed) =>
      var edit := React(emoji, agent, removed);
      State(ReactChannels(s.channels, id, edit), ReactThreads(s.threads, id, edit))
  }

  function Run(s: State, events: seq<Event>): State {
    if events == [] then s else Step(Run(s, events[..|events| - 1]), events[|events| - 1])
  }

  // ---- dictionary and list facts --------------------------------------------------------

  lemma RowIs<V>(rows: seq<Row<V>>, key: string, i: nat)
    requires i <= |rows| && (i < |rows| ==> rows[i].key == key) && forall j :: 0 <= j < i ==> rows[j].key != key
    ensures RowOf(rows, key) == i
  {
  }

  lemma LookupReplaced<V>(rows: seq<Row<V>>, key: string, value: V, other: string)
    requires RowOf(rows, key) < |rows|
    ensures Lookup(Put(rows, key, value), other) == if other == key then Some(value) else Lookup(rows, other)
  {
    RowIs(Put(rows, key, value), other, if other == key then RowOf(rows, key) else RowOf(rows, other));
  }

  lemma {:induction false} LookupConcat<V>(a: seq<Row<V>>, b: seq<Row<V>>, key: string)
    ensures Lookup(a + b, key) == if Lookup(a, key).Some? then Lookup(a, key) else Lookup(b, key)
  {
    if a == [] {
      assert a + b == b;
    } else {
      LookupConcat(a[1..], b, key);
      assert (a + b)[1..] == a[1..] + b;
    }
  }

  /** A new row in the middle leaves the other rows where they are found. */
  lemma LookupInserted<V>(rows: seq<Row<V>>, p: nat, key: string, value: V, other: string)
    requires p <= |rows| && Lookup(rows, key) == None
    ensures Lookup(rows[..p] + [Row(key, value)] + rows[p..], other) == if other == key then Some(value) else Lookup(rows, other)
  {
    hide RowOf;
    var a, row, b := rows[..p], [Row(key, value)], rows[p..];
    assert rows == a + b;
    LookupConcat(a, b, other);
    LookupConcat(a + row, b, other);
    LookupConcat(a, row, other);
    LookupConcat(a, b, key);
    RowIs(row, other, if other == key then 0 else 1);
  }

  lemma LookupPut<V>(rows: seq<Row<V>>, key: string, value: V, other: string)
    ensures Lookup(Put(rows, key, value), other) == if other == key then Some(value) else Lookup(rows, other)
  {
    hide PlaceOf;
    if RowOf(rows, key) < |rows| { LookupReplaced(rows, key, value, other); }
    else { LookupInserted(rows, PlaceOf(rows, key), key, value, other); }
  }

  lemma PutSame<V>(rows: seq<Row<V>>, key: string, value: V)
    requires Lookup(rows, key) == Some(value)
    ensures Put(rows, key, value) == rows
  {
  }

  lemma IndexIs(ms: seq<Message>, id: string, i: nat)
    requires i <= |ms| && (i < |ms| ==> ms[i].id == id) && forall j :: 0 <= j < i ==> ms[j].id != id
    ensures IndexOf(ms, id) == i
  {
  }

  lemma GetEdited(ms: seq<Message>, id: string, edit: Edit, q: string)
    ensures Get(EditIn(ms, id, edit), q) ==
            if q == id && Has(ms, q) then Some(Apply(Get(ms, q).value, edit)) else Get(ms, q)
  {
    hide AddReaction, RemoveReaction;
    IndexIs(EditIn(ms, id, edit), q, IndexOf(ms, q));
  }

  lemma GetAppended(ms: seq<Message>, m: Message, q: string)
    ensures Get(ms + [m], q) == if Has(ms, q) then Get(ms, q) else if m.id == q then Some(m) else None
  {
    var i := IndexOf(ms, q);
    IndexIs(ms + [m], q, if i < |ms| || m.id == q then i else i + 1);
  }

  lemma LookupReactedChannels(rows: seq<Row<seq<Message>>>, id: string, edit: Edit, key: string)
    ensures Lookup(ReactChannels(rows, id, edit), key) ==
            match Lookup(rows, key) case None => None case Some(ms) => Some(EditIn(ms, id, edit))
  {
    hide EditIn;
    RowIs(ReactChannels(rows, id, edit), key, RowOf(rows, key));
  }

  lemma LookupReactedThreads(rows: seq<Row<Thread>>, id: string, edit: Edit, key: string)
    ensures Lookup(ReactThreads(rows, id, edit), key) ==
            match Lookup(rows, key) case None => None case Some(t) => Some(ReactInThread(t, id, edit))
  {
    hide ReactInThread;
    RowIs(ReactThreads(rows, id, edit), key, RowOf(rows, key));
  }

  // ---- what one event does to a stored message ------------------------------------------

  /** A place where a message is kept: a channel's timeline or the replies of a thread. */
  datatype Place = InChannel(channel: string) | InThread(id: string)

  ghost function Messages(s: State, place: Place): seq<Message> {
    match place
    case InChannel(channel) => Channel(s, channel)
    case InThread(id) => ThreadOf(s, id).replies
  }

  ghost function At(s: State, place: Place, q: string): Option<Message> {
    Get(Messages(s, place), q)
  }

  /** The edit that an event makes to the message `q` at `place`, if it makes one. */
  ghost function EditOf(s: State, e: Event, place: Place, q: string): Option<Edit> {
    match e
    case Created(_, _, _, _, _, _) => None
    case Updated(channel, id, text) => if place == InChannel(channel) && id == q then Some(SetText(text)) else None
    case Replied(parent, id, _, _, _) =>
      if parent == q && !Has(ThreadOf(s, parent).replies, id) && place.InChannel? && FirstWith(s.channels, q) == Some(place.channel)
      then Some(Bump) else None
    case Reacted(id, emoji, agent, removed) => if id == q then Some(React(emoji, agent, removed)) else None
  }

  ghost function Edited(m: Message, edit: Option<Edit>): Message {
    if edit.Some? then Apply(m, edit.value) else m
  }

  lemma MessagesSet(s: State, key: string, ms: seq<Message>, t: Thread, place: Place)
    ensures Messages(SetChannel(s, key, ms), place) == if place == InChannel(key) then ms else Messages(s, place)
    ensures Messages(SetThread(s, key, t), place) == if place == InThread(key) then t.replies else Messages(s, place)
    ensures ThreadOf(SetThread(s, key, t), key) == t
  {
    hide Put, RowOf;
    LookupPut(s.threads, key, t, key);
    match place
    case InChannel(channel) => LookupPut(s.channels, key, ms, channel);
    case InThread(id) => LookupPut(s.threads, key, t, id);
  }

  lemma BumpAt(s: State, p: string, place: Place, q: string)
    requires At(s, place, q).Some?
    ensures At(BumpChannel(s, p), place, q) ==
            if p == q && place.InChannel? && FirstWith(s.channels, q) == Some(place.channel)
            then Some(Apply(At(s, place, q).value, Bump)) else At(s, place, q)
  {
    hide Put, EditIn, Get, Apply, FirstWith, Lookup;
    var first := FirstWith(s.channels, p);
    if first.Some? {
      var ms := Channel(s, first.value);
      MessagesSet(s, first.value, EditIn(ms, p, Bump), NO_THREAD, place);
      GetEdited(ms, p, Bump, q);
      GetHas(ms, q);
    }
  }

  lemma GetHas(ms: seq<Message>, q: string)
    ensures Get(ms, q).Some? <==> Has(ms, q)
  {
  }

  lemma CreatedAt(s: State, e: Event, place: Place, q: string)
    requires e.Created? && At(s, place, q).Some?
    ensures At(Step(s, e), place, q) == At(s, place, q)
  {
    hide Put, Get, Lookup, IndexOf;
    var prev := Channel(s, e.channel);
    MessagesSet(s, e.channel, if Has(prev, e.id) then prev else prev + [NewMessage(e)], NO_THREAD, place);
    GetAppended(prev, NewMessage(e), q);
    GetHas(prev, q);
  }

  lemma UpdatedAt(s: State, e: Event, place: Place, q: string)
    requires e.Updated? && At(s, place, q).Some?
    ensures At(Step(s, e), place, q) == Some(Edited(At(s, place, q).value, EditOf(s, e, place, q)))
  {
    hide Put, Get, Lookup, IndexOf, EditIn, Apply;
    var prev := Channel(s, e.channel);
    MessagesSet(s, e.channel, EditIn(prev, e.id, SetText(e.text)), NO_THREAD, place);
    GetEdited(prev, e.id, SetText(e.text), q);
    GetHas(prev, q);
  }

  /** Entering a new reply touches no message that is already stored. */
  ghost function Entered(s: State, e: Event): State
    requires e.Replied?
  {
    var t := ThreadOf(s, e.parent);
    var inserted := SetThread(s, e.parent, t.(replies := t.replies + [NewReply(e, t)]));
    SetThread(inserted, e.parent, BumpParent(ThreadOf(inserted, e.parent)))
  }

  lemma EnteredAt(s: State, e: Event, place: Place, q: string)
    requires e.Replied?
    ensures Entered(s, e).channels == s.channels
    ensures Messages(Entered(s, e), place) ==
            if place == InThread(e.parent) then Messages(s, place) + [NewReply(e, ThreadOf(s, e.parent))] else Messages(s, place)
    ensures At(s, place, q).Some? ==> At(Entered(s, e), place, q) == At(s, place, q)
  {
    hide Put, Get, Lookup, IndexOf;
    var t := ThreadOf(s, e.parent);
    var u := t.(replies := t.replies + [NewReply(e, t)]);
    var inserted := SetThread(s, e.parent, u);
    MessagesSet(s, e.parent, [], u, place);
    MessagesSet(inserted, e.parent, [], BumpParent(u), place);
    GetAppended(t.replies, NewReply(e, t), q);
    GetHas(t.replies, q);
  }

  lemma RepliedAt(s: State, e: Event, place: Place, q: string)
    requires e.Replied? && At(s, place, q).Some?
    ensures At(Step(s, e), place, q) == Some(Edited(At(s, place, q).value, EditOf(s, e, place, q)))
  {
    hide Put, Get, Lookup, IndexOf, Apply, FirstWith, BumpChannel, SetThread;
    var t := ThreadOf(s, e.parent);
    if Has(t.replies, e.id) {
      MessagesSet(s, e.parent, [], t, place);
    } else {
      EnteredAt(s, e, place, q);
      BumpAt(Entered(s, e), e.parent, place, q);
    }
  }

  lemma ReactedAt(s: State, e: Event, place: Place, q: string)
    requires e.Reacted? && At(s, place, q).Some?
    ensures At(Step(s, e), place, q) == Some(Edited(At(s, place, q).value, EditOf(s, e, place, q)))
  {
    hide Get, Lookup, Apply, EditIn, ReactChannels, ReactThreads;
    var edit := React(e.emoji, e.agent, e.removed);
    var ms := Messages(s, place);
    GetEdited(ms, e.id, edit, q);
    GetHas(ms, q);
    assert !Has([], q);
    GetHas([], q);
    match place
    case InChannel(channel) =>
      LookupReactedChannels(s.channels, e.id, edit, channel);
    case InThread(id) =>
      LookupReactedThreads(s.threads, e.id, edit, id);
  }

  /** A stored message is never lost or moved, and changes only by the edit the event makes. */
  lemma StepAt(s: State, e: Event, place: Place, q: string)
    requires At(s, place, q).Some?
    ensures At(Step(s, e), place, q) == Some(Edited(At(s, place, q).value, EditOf(s, e, place, q)))
  {
    hide At, Apply, Step;
    match e
    case Created(_, _, _, _, _, _) => CreatedAt(s, e, place, q);
    case Updated(_, _, _) => UpdatedAt(s, e, place, q);
    case Replied(_, _, _, _, _) => RepliedAt(s, e, place, q);
    case Reacted(_, _, _, _) => ReactedAt(s, e, place, q);
  }

  // ---- repeats --------------------------------------------------------------------------

  /** The place and id under which an event stores a message. */
  ghost function Stores(e: Event): Option<(Place, string)> {
    match e
    case Created(channel, id, _, _, _, _) => Some((InChannel(channel), id))
    case Replied(parent, id, _, _, _) => Some((InThread(parent), id))
    case _ => None
  }

  /** An event that stores under the same place and id as an earlier one. */
  ghost predicate IsRepeat(events: seq<Event>, e: Event) {
    Stores(e).Some? && exists i :: 0 <= i < |events| && Stores(events[i]) == Stores(e)
  }

  ghost function DropRepeats(events: seq<Event>): seq<Event> {
    if events == [] then []
    else
      var before, e := events[..|events| - 1], events[|events| - 1];
      DropRepeats(before) + if IsRepeat(before, e) then [] else [e]
  }

  lemma StepStores(s: State, e: Event)
    requires Stores(e).Some?
    ensures At(Step(s, e), Stores(e).value.0, Stores(e).value.1).Some?
  {
    hide Get, IndexOf, Put, Lookup, BumpChannel, SetThread, SetChannel;
    var (place, id) := Stores(e).value;
    if e.Created? {
      var prev := Channel(s, e.channel);
      MessagesSet(s, e.channel, if Has(prev, id) then prev else prev + [NewMessage(e)], NO_THREAD, place);
      GetAppended(prev, NewMessage(e), id);
      GetHas(prev, id);
    } else {
      var t := ThreadOf(s, e.parent);
      GetHas(t.replies, id);
      if Has(t.replies, id) {
        MessagesSet(s, e.parent, [], t, place);
      } else {
        EnteredAt(s, e, place, id);
        GetAppended(t.replies, NewReply(e, t), id);
        BumpAt(Entered(s, e), e.parent, place, id);
      }
    }
  }

  lemma {:induction false} StoredStays(s: State, events: seq<Event>, i: nat)
    requires i < |events| && Stores(events[i]).Some?
    ensures At(Run(s, events), Stores(events[i]).value.0, Stores(events[i]).value.1).Some?
  {
    hide At, Step, Apply;
    var before, e := events[..|events| - 1], events[|events| - 1];
    if i == |before| {
      StepStores(Run(s, before), e);
    } else {
      StoredStays(s, before, i);
      StepAt(Run(s, before), e, Stores(events[i]).value.0, Stores(events[i]).value.1);
    }
  }

  /** Storing what is already there changes nothing. */
  lemma RepeatIsNothing(s: State, e: Event)
    requires Stores(e).Some? && At(s, Stores(e).value.0, Stores(e).value.1).Some?
    ensures Step(s, e) == s
  {
    hide Put, IndexOf;
    if e.Created? {
      assert Get([], e.id) == None;
      PutSame(s.channels, e.channel, Channel(s, e.channel));
    } else {
      assert Get([], e.id) == None;
      PutSame(s.threads, e.parent, ThreadOf(s, e.parent));
    }
  }

  /** Dropping every later repeat of a created message or a reply from any stream, whatever
      the repeat carries, leaves the final store as it was. */
  lemma {:induction false} RepeatsDoNotMatter(s: State, events: seq<Event>)
    ensures Run(s, DropRepeats(events)) == Run(s, events)
  {
    hide At, Step, Stores;
    if events != [] {
      var before, e := events[..|events| - 1], events[|events| - 1];
      RepeatsDoNotMatter(s, before);
      if IsRepeat(before, e) {
        var i :| 0 <= i < |before| && Stores(before[i]) == Stores(e);
        StoredStays(s, before, i);
        RepeatIsNothing(Run(s, before), e);
        assert DropRepeats(events) == DropRepeats(before);
      } else {
        assert DropRepeats(events)[..|DropRepeats(before)|] == DropRepeats(before);
      }
    }
  }

  // ---- reaction groups ------------------------------------------------------------------

  ghost predicate NoRepeats(agents: seq<string>) {
    forall i, j :: 0 <= i < j < |agents| ==> agents[i] != agents[j]
  }

  ghost predicate Counted(r: Reaction) {
    r.count == |r.agents| > 0 && NoRepeats(r.agents)
  }

  /** One group per emoji, each counting its distinct agents. */
  ghost predicate Tidy(rs: seq<Reaction>) {
    (forall i :: 0 <= i < |rs| ==> Counted(rs[i])) && forall i, j :: 0 <= i < j < |rs| ==> rs[i].emoji != rs[j].emoji
  }

  ghost function VotesOf(r: Reaction): set<(string, string)> {
    set a | a in r.agents :: (r.emoji, a)
  }

  /** Who reacted with what. */
  ghost function Votes(rs: seq<Reaction>): set<(string, string)> {
    if rs == [] then {} else VotesOf(rs[0]) + Votes(rs[1..])
  }

  /** A removal is orderly when the agent reacted with the emoji, or nobody did. */
  ghost predicate Orderly(votes: set<(string, string)>, emoji: string, agent: string) {
    (emoji, agent) in votes || forall v :: v in votes ==> v.0 != emoji
  }

  lemma {:induction false} VoteIsListed(rs: seq<Reaction>, emoji: string, agent: string)
    ensures (emoji, agent) in Votes(rs) <==> exists i :: 0 <= i < |rs| && rs[i].emoji == emoji && agent in rs[i].agents
  {
    if rs != [] {
      VoteIsListed(rs[1..], emoji, agent);
      if (emoji, agent) in Votes(rs[1..]) {
        var i :| 0 <= i < |rs[1..]| && rs[1..][i].emoji == emoji && agent in rs[1..][i].agents;
        assert rs[i + 1].emoji == emoji && agent in rs[i + 1].agents;
      }
      if i :| 0 <= i < |rs| && rs[i].emoji == emoji && agent in rs[i].agents {
        if i > 0 { assert rs[1..][i - 1].emoji == emoji && agent in rs[1..][i - 1].agents; }
      }
    }
  }

  lemma {:induction false} VotesAppend(rs: seq<Reaction>, r: Reaction)
    ensures Votes(rs + [r]) == Votes(rs) + VotesOf(r)
  {
    if rs != [] {
      VotesAppend(rs[1..], r);
      assert (rs + [r])[1..] == rs[1..] + [r];
    } else {
      assert [r][1..] == [];
    }
  }

  lemma {:induction false} JoinElsewhere(rs: seq<Reaction>, emoji: string, agent: string)
    requires forall i :: 0 <= i < |rs| ==> rs[i].emoji != emoji
    ensures Join(rs, emoji, agent) == rs
  {
    if rs != [] { JoinElsewhere(rs[1..], emoji, agent); }
  }

  lemma {:induction false} JoinAt(rs: seq<Reaction>, i: nat, emoji: string, agent: string)
    requires Tidy(rs) && i < |rs| && rs[i].emoji == emoji
    ensures Join(rs, emoji, agent) == rs[..i] + [Reaction(emoji, rs[i].count + 1, rs[i].agents + [agent])] + rs[i + 1..]
  {
    hide Counted;
    if i == 0 {
      JoinElsewhere(rs[1..], emoji, agent);
    } else {
      JoinAt(rs[1..], i - 1, emoji, agent);
      assert rs[1..][..i - 1] == rs[1..i] && rs[1..][i..] == rs[i + 1..];
      assert [rs[0]] + rs[1..i] == rs[..i];
    }
  }

  lemma JoinOne(r: Reaction, agent: string)
    requires Counted(r) && agent !in r.agents
    ensures var q := Reaction(r.emoji, r.count + 1, r.agents + [agent]);
      Counted(q) && VotesOf(q) == VotesOf(r) + {(r.emoji, agent)}
  {
    var q := Reaction(r.emoji, r.count + 1, r.agents + [agent]);
    assert forall a :: a in q.agents <==> a in r.agents || a == agent;
  }

  lemma OneVote(emoji: string, agent: string)
    ensures VotesOf(Reaction(emoji, 1, [agent])) == {(emoji, agent)}
  {
  }

  /** Adding a reaction adds exactly that vote. */
  lemma AddMeans(rs: seq<Reaction>, emoji: string, agent: string)
    requires Tidy(rs)
    ensures Tidy(AddReaction(rs, emoji, agent)) && Votes(AddReaction(rs, emoji, agent)) == Votes(rs) + {(emoji, agent)}
  {
    hide Join, Votes, VotesOf;
    var i := GroupOf(rs, emoji);
    if i == |rs| {
      VotesAppend(rs, Reaction(emoji, 1, [agent]));
      OneVote(emoji, agent);
    } else if agent in rs[i].agents {
      VoteIsListed(rs, emoji, agent);
    } else {
      var q := Reaction(emoji, rs[i].count + 1, rs[i].agents + [agent]);
      JoinAt(rs, i, emoji, agent);
      JoinOne(rs[i], agent);
      VotesSplit(rs, i, q);
      RemovedIsTidyIff(rs, i, q);
      GroupVotes(rs, i);
      assert (Votes(rs) - VotesOf(rs[i])) + VotesOf(q) == Votes(rs) + {(emoji, agent)};
    }
  }

  lemma {:induction false} WithoutIs(agents: seq<string>, agent: string)
    requires NoRepeats(agents)
    ensures var r := Without(agents, agent);
      && NoRepeats(r) && |r| == |agents| - (if agent in agents then 1 else 0)
      && forall a :: a in r <==> a in agents && a != agent
  {
    if agents != [] {
      var rest := Without(agents[1..], agent);
      WithoutIs(agents[1..], agent);
      assert agents == [agents[0]] + agents[1..];
      assert agents[0] !in rest;
      assert forall j :: 0 <= j < |rest| ==> rest[j] in rest;
    }
  }

  lemma LeaveOne(r: Reaction, agent: string)
    requires Counted(r)
    ensures var q := Leave(r, r.emoji, agent);
      && q.emoji == r.emoji
      && VotesOf(q) == VotesOf(r) - {(r.emoji, agent)}
      && (agent in r.agents ==> (r.emoji, agent) in VotesOf(r) && (q.count > 0 ==> Counted(q)) && (q.count <= 0 ==> VotesOf(q) == {}))
      && (agent !in r.agents ==> VotesOf(q) == VotesOf(r) != {} && (q.count > 0 <==> |r.agents| > 1) && !Counted(q))
  {
    WithoutIs(r.agents, agent);
    var q := Leave(r, r.emoji, agent);
    if agent !in r.agents { assert (r.emoji, r.agents[0]) in VotesOf(r); }
  }

  lemma {:induction false} RemoveElsewhere(rs: seq<Reaction>, emoji: string, agent: string)
    requires Tidy(rs) && forall i :: 0 <= i < |rs| ==> rs[i].emoji != emoji
    ensures RemoveReaction(rs, emoji, agent) == rs
  {
    if rs != [] { RemoveElsewhere(rs[1..], emoji, agent); }
  }

  lemma {:induction false} RemoveConcat(a: seq<Reaction>, b: seq<Reaction>, emoji: string, agent: string)
    ensures RemoveReaction(a + b, emoji, agent) == RemoveReaction(a, emoji, agent) + RemoveReaction(b, emoji, agent)
  {
    hide Remaining;
    if a == [] {
      assert a + b == b;
    } else {
      var first, rest := Remaining(a[0], emoji, agent), RemoveReaction(a[1..], emoji, agent);
      RemoveConcat(a[1..], b, emoji, agent);
      assert (a + b)[1..] == a[1..] + b;
      Regroup(first, rest, RemoveReaction(b, emoji, agent));
    }
  }

  lemma Regroup(x: seq<Reaction>, y: seq<Reaction>, z: seq<Reaction>)
    ensures x + (y + z) == (x + y) + z
  {
  }

  lemma RemoveOne(r: Reaction, emoji: string, agent: string)
    ensures RemoveReaction([r], emoji, agent) == Remaining(r, emoji, agent)
  {
    hide Remaining;
    assert [r][1..] == [];
  }

  lemma RemoveAt(rs: seq<Reaction>, i: nat, emoji: string, agent: string)
    requires Tidy(rs) && i < |rs| && rs[i].emoji == emoji
    ensures var q := Leave(rs[i], emoji, agent);
      RemoveReaction(rs, emoji, agent) == rs[..i] + (if q.count > 0 then [q] else []) + rs[i + 1..]
  {
    hide RemoveReaction, Leave, Counted;
    var a, b := rs[..i], rs[i + 1..];
    assert rs == a + [rs[i]] + b;
    RemoveConcat(a + [rs[i]], b, emoji, agent);
    RemoveConcat(a, [rs[i]], emoji, agent);
    RemoveOne(rs[i], emoji, agent);
    RemoveElsewhere(a, emoji, agent);
    RemoveElsewhere(b, emoji, agent);
  }

  lemma {:induction false} VotesConcat(a: seq<Reaction>, b: seq<Reaction>)
    ensures Votes(a + b) == Votes(a) + Votes(b)
  {
    if a == [] { assert a + b == b; }
    else {
      VotesConcat(a[1..], b);
      assert (a + b)[1..] == a[1..] + b;
    }
  }

  lemma VotesAround(a: seq<Reaction>, r: Reaction, b: seq<Reaction>)
    ensures Votes(a + [r] + b) == Votes(a) + VotesOf(r) + Votes(b)
  {
    VotesConcat(a + [r], b);
    VotesAppend(a, r);
  }

  lemma VotesElsewhere(rs: seq<Reaction>, emoji: string)
    requires forall i :: 0 <= i < |rs| ==> rs[i].emoji != emoji
    ensures forall v :: v in Votes(rs) ==> v.0 != emoji
  {
    forall v | v in Votes(rs) ensures v.0 != emoji { VoteIsListed(rs, v.0, v.1); }
  }

  /** Removing a reaction from tidy groups takes exactly that vote away and leaves tidy groups
      if and only if the removal is orderly. */
  lemma RemoveMeansIff(rs: seq<Reaction>, emoji: string, agent: string)
    requires Tidy(rs)
    ensures var r := RemoveReaction(rs, emoji, agent);
      Tidy(r) && Votes(r) == Votes(rs) - {(emoji, agent)} <==> Orderly(Votes(rs), emoji, agent)
  {
    var i := GroupOf(rs, emoji);
    if i == |rs| {
      RemoveElsewhere(rs, emoji, agent);
      VotesElsewhere(rs, emoji);
    } else if agent in rs[i].agents {
      RemoveListed(rs, i, agent);
    } else {
      RemoveUnlisted(rs, i, agent);
    }
  }

  lemma RemoveListed(rs: seq<Reaction>, i: nat, agent: string)
    requires Tidy(rs) && i < |rs| && agent in rs[i].agents
    ensures var r := RemoveReaction(rs, rs[i].emoji, agent);
      Tidy(r) && Votes(r) == Votes(rs) - {(rs[i].emoji, agent)} && Orderly(Votes(rs), rs[i].emoji, agent)
  {
    hide Counted, VotesOf, Leave, RemoveReaction, Votes;
    var q := Leave(rs[i], rs[i].emoji, agent);
    RemoveAt(rs, i, rs[i].emoji, agent);
    LeaveOne(rs[i], agent);
    GroupVotes(rs, i);
    VotesSplit(rs, i, q);
    RemovedIsTidyIff(rs, i, q);
    assert (Votes(rs) - VotesOf(rs[i])) + VotesOf(q) == Votes(rs) - {(rs[i].emoji, agent)};
  }

  /** Removing somebody who did not react: with two or more agents the count falls below
      their number, and with one the group disappears together with that agent's vote. */
  lemma RemoveUnlisted(rs: seq<Reaction>, i: nat, agent: string)
    requires Tidy(rs) && i < |rs| && agent !in rs[i].agents
    ensures var r := RemoveReaction(rs, rs[i].emoji, agent);
      && (|rs[i].agents| > 1 ==> !Tidy(r) && Votes(r) == Votes(rs))
      && (|rs[i].agents| == 1 ==> Tidy(r) && Votes(r) == Votes(rs) - VotesOf(rs[i]) && Votes(r) != Votes(rs))
      && !Orderly(Votes(rs), rs[i].emoji, agent)
      && Votes(rs) - {(rs[i].emoji, agent)} == Votes(rs)
  {
    hide Counted, VotesOf, Leave, RemoveReaction, Votes;
    var q := Leave(rs[i], rs[i].emoji, agent);
    RemoveAt(rs, i, rs[i].emoji, agent);
    LeaveOne(rs[i], agent);
    GroupVotes(rs, i);
    var v :| v in VotesOf(rs[i]);
    assert v in Votes(rs) && v.0 == rs[i].emoji;
    VotesSplit(rs, i, q);
    RemovedIsTidyIff(rs, i, q);
  }

  lemma VotesSplit(rs: seq<Reaction>, i: nat, q: Reaction)
    requires Tidy(rs) && i < |rs|
    ensures Votes(rs[..i] + [q] + rs[i + 1..]) == (Votes(rs) - VotesOf(rs[i])) + VotesOf(q)
    ensures Votes(rs[..i] + rs[i + 1..]) == Votes(rs) - VotesOf(rs[i])
    ensures Votes(rs[..i] + [] + rs[i + 1..]) == Votes(rs) - VotesOf(rs[i])
  {
    hide Counted, Votes;
    var a, b := rs[..i], rs[i + 1..];
    assert rs == a + [rs[i]] + b;
    assert a + [] + b == a + b;
    VotesAround(a, rs[i], b);
    VotesAround(a, q, b);
    VotesConcat(a, b);
    VotesElsewhere(a, rs[i].emoji);
    VotesElsewhere(b, rs[i].emoji);
    assert forall v :: v in VotesOf(rs[i]) ==> v.0 == rs[i].emoji;
    assert Votes(a) + Votes(b) == Votes(rs) - VotesOf(rs[i]);
  }

  lemma GroupVotes(rs: seq<Reaction>, i: nat)
    requires Tidy(rs) && i < |rs|
    ensures forall agent :: (rs[i].emoji, agent) in Votes(rs) <==> agent in rs[i].agents
    ensures VotesOf(rs[i]) <= Votes(rs) && VotesOf(rs[i]) != {}
    ensures forall v :: v in VotesOf(rs[i]) ==> v.0 == rs[i].emoji
  {
    assert (rs[i].emoji, rs[i].agents[0]) in VotesOf(rs[i]);
    forall agent ensures (rs[i].emoji, agent) in Votes(rs) <==> agent in rs[i].agents {
      VoteIsListed(rs, rs[i].emoji, agent);
    }
  }

  lemma RemovedIsTidyIff(rs: seq<Reaction>, i: nat, q: Reaction)
    requires Tidy(rs) && i < |rs| && q.emoji == rs[i].emoji
    ensures Tidy(rs[..i] + [q] + rs[i + 1..]) <==> Counted(q)
    ensures Tidy(rs[..i] + rs[i + 1..]) && rs[..i] + [] + rs[i + 1..] == rs[..i] + rs[i + 1..]
  {
    hide Counted;
    var w := rs[..i] + [q] + rs[i + 1..];
    assert w[i] == q;
    assert forall j :: 0 <= j < |rs| && j != i ==> w[j] == rs[j];
    assert |w| == |rs|;
    var x := rs[..i] + rs[i + 1..];
    assert forall j :: 0 <= j < i ==> x[j] == rs[j];
    assert forall j :: i <= j < |x| ==> x[j] == rs[j + 1];
  }

  // ---- reactions over a run -------------------------------------------------------------

  /** The votes on `q` that a stream of events describes. */
  ghost function FoldVotes(votes: set<(string, string)>, events: seq<Event>, q: string): set<(string, string)> {
    if events == [] then votes
    else
      var before, e := FoldVotes(votes, events[..|events| - 1], q), events[|events| - 1];
      if !e.Reacted? || e.id != q then before
      else if e.removed then before - {(e.emoji, e.agent)}
      else before + {(e.emoji, e.agent)}
  }

  /** Every removal in the stream is orderly when its turn comes. */
  ghost predicate OrderlyRun(votes: set<(string, string)>, events: seq<Event>, q: string) {
    events != [] ==>
      var before, e := events[..|events| - 1], events[|events| - 1];
      && OrderlyRun(votes, before, q)
      && (e.Reacted? && e.id == q && e.removed ==> Orderly(FoldVotes(votes, before, q), e.emoji, e.agent))
  }

  /** The stored message shows these votes, in tidy groups. */
  ghost predicate Shows(s: State, place: Place, q: string, votes: set<(string, string)>) {
    At(s, place, q).Some? && Tidy(At(s, place, q).value.reactions) && Votes(At(s, place, q).value.reactions) == votes
  }

  lemma ShowsStep(s: State, e: Event, place: Place, q: string, votes: set<(string, string)>)
    requires Shows(s, place, q, votes)
    ensures var next := FoldVotes(votes, [e], q);
      Shows(Step(s, e), place, q, next) <==> (e.Reacted? && e.id == q && e.removed ==> Orderly(votes, e.emoji, e.agent))
  {
    hide At, Step, Tidy, Votes, Orderly, AddReaction, RemoveReaction, FirstWith;
    StepAt(s, e, place, q);
    assert [e][..0] == [] && FoldVotes(votes, [], q) == votes;
    var rs := At(s, place, q).value.reactions;
    if e.Reacted? && e.id == q {
      AddMeans(rs, e.emoji, e.agent);
      RemoveMeansIff(rs, e.emoji, e.agent);
    }
  }

  ghost predicate ShowsThroughout(s: State, events: seq<Event>, place: Place, q: string, votes: set<(string, string)>) {
    forall k :: 0 <= k <= |events| ==> Shows(Run(s, events[..k]), place, q, FoldVotes(votes, events[..k], q))
  }

  /** At every moment of a run the groups on a stored message count exactly the distinct agents
      whose reactions the stream leaves standing, if and only if every removal names an agent
      who reacted with that emoji or an emoji nobody reacted with. */
  lemma {:induction false} ReactionsCountAgentsIff(s: State, events: seq<Event>, place: Place, q: string)
    requires At(s, place, q).Some? && Tidy(At(s, place, q).value.reactions)
    ensures var votes := Votes(At(s, place, q).value.reactions);
      ShowsThroughout(s, events, place, q, votes) <==> OrderlyRun(votes, events, q)
  {
    hide At, Step, Tidy, Votes, Orderly, Shows;
    var votes := Votes(At(s, place, q).value.reactions);
    assert Shows(s, place, q, votes) by { ShowsNow(s, place, q); }
    if events == [] {
      assert events[..0] == [];
    } else {
      var n := |events| - 1;
      var before, e := events[..n], events[n];
      ReactionsCountAgentsIff(s, before, place, q);
      assert forall k :: 0 <= k <= n ==> before[..k] == events[..k];
      assert events[..n + 1] == events && before[..n] == before;
      assert ShowsThroughout(s, events, place, q, votes) <==>
             ShowsThroughout(s, before, place, q, votes) && Shows(Run(s, events), place, q, FoldVotes(votes, events, q));
      if ShowsThroughout(s, before, place, q, votes) {
        assert Shows(Run(s, before[..n]), place, q, FoldVotes(votes, before[..n], q));
        ShowsStep(Run(s, before), e, place, q, FoldVotes(votes, before, q));
        FoldOne(votes, events, q);
      }
    }
  }

  lemma ShowsNow(s: State, place: Place, q: string)
    requires At(s, place, q).Some? && Tidy(At(s, place, q).value.reactions)
    ensures Shows(s, place, q, Votes(At(s, place, q).value.reactions))
  {
  }

  lemma FoldOne(votes: set<(string, string)>, events: seq<Event>, q: string)
    requires events != []
    ensures var n := |events| - 1;
      FoldVotes(votes, events, q) == FoldVotes(FoldVotes(votes, events[..n], q), [events[n]], q)
  {
    assert [events[|events| - 1]][..0] == [];
  }

  // ---- reply counts ---------------------------------------------------------------------

  ghost predicate DistinctRows<V>(rows: seq<Row<V>>) {
    forall i, j :: 0 <= i < j < |rows| ==> rows[i].key != rows[j].key
  }

  lemma PutKeepsDistinct<V>(rows: seq<Row<V>>, key: string, value: V)
    requires DistinctRows(rows)
    ensures DistinctRows(Put(rows, key, value))
  {
    hide PlaceOf;
    var i, r := RowOf(rows, key), Put(rows, key, value);
    if i == |rows| {
      var p := PlaceOf(rows, key);
      assert forall j :: 0 <= j < p ==> r[j] == rows[j];
      assert forall j :: p < j < |r| ==> r[j] == rows[j - 1];
    }
  }

  lemma StepKeepsDistinct(s: State, e: Event)
    requires DistinctRows(s.channels) && DistinctRows(s.threads)
    ensures DistinctRows(Step(s, e).channels) && DistinctRows(Step(s, e).threads)
  {
    hide Put, EditIn, ReactInThread, FirstWith, Lookup, DistinctRows;
    match e
    case Created(channel, _, _, _, _, _) =>
      var prev := Channel(s, channel);
      PutKeepsDistinct(s.channels, channel, if Has(prev, e.id) then prev else prev + [NewMessage(e)]);
    case Updated(channel, id, text) =>
      PutKeepsDistinct(s.channels, channel, EditIn(Channel(s, channel), id, SetText(text)));
    case Replied(parent, _, _, _, _) =>
      RepliedKeepsDistinct(s, e);
    case Reacted(id, emoji, agent, removed) =>
      SameKeysDistinct(s.channels, Step(s, e).channels);
      SameKeysDistinct(s.threads, Step(s, e).threads);
  }

  lemma SameKeysDistinct<V>(a: seq<Row<V>>, b: seq<Row<V>>)
    requires DistinctRows(a) && |a| == |b| && forall i :: 0 <= i < |a| ==> a[i].key == b[i].key
    ensures DistinctRows(b)
  {
  }

  lemma RepliedKeepsDistinct(s: State, e: Event)
    requires e.Replied? && DistinctRows(s.channels) && DistinctRows(s.threads)
    ensures DistinctRows(OnReplied(s, e).channels) && DistinctRows(OnReplied(s, e).threads)
  {
    hide Put, EditIn, FirstWith, Lookup, DistinctRows, Has;
    var t := ThreadOf(s, e.parent);
    PutKeepsDistinct(s.threads, e.parent, t);
    var u := t.(replies := t.replies + [NewReply(e, t)]);
    PutKeepsDistinct(s.threads, e.parent, u);
    var inserted := SetThread(s, e.parent, u);
    var bumped := BumpParent(ThreadOf(inserted, e.parent));
    PutKeepsDistinct(inserted.threads, e.parent, bumped);
    var entered := SetThread(inserted, e.parent, bumped);
    if FirstWith(entered.channels, e.parent).Some? {
      var c := FirstWith(entered.channels, e.parent).value;
      PutKeepsDistinct(entered.channels, c, EditIn(Channel(entered, c), e.parent, Bump));
    }
  }

  /** The message is shown in this channel and in no other. */
  ghost predicate OnlyIn(s: State, channel: string, p: string) {
    forall c :: At(s, InChannel(c), p).Some? <==> c == channel
  }

  lemma {:induction false} FirstWithIsShown(rows: seq<Row<seq<Message>>>, p: string)
    ensures FirstWith(rows, p).Some? ==>
              exists i :: 0 <= i < |rows| && rows[i].key == FirstWith(rows, p).value && Has(rows[i].value, p)
    ensures FirstWith(rows, p).None? ==> forall i :: 0 <= i < |rows| ==> !Has(rows[i].value, p)
  {
    hide Has;
    if rows != [] && !Has(rows[0].value, p) {
      FirstWithIsShown(rows[1..], p);
      if FirstWith(rows, p).Some? {
        var i :| 0 <= i < |rows[1..]| && rows[1..][i].key == FirstWith(rows, p).value && Has(rows[1..][i].value, p);
        assert rows[i + 1].key == FirstWith(rows, p).value && Has(rows[i + 1].value, p);
      }
    }
  }

  lemma FirstWithIsOnly(s: State, channel: string, p: string)
    requires DistinctRows(s.channels) && OnlyIn(s, channel, p)
    ensures FirstWith(s.channels, p) == Some(channel)
  {
    hide FirstWith, IndexOf;
    var rows := s.channels;
    FirstWithIsShown(rows, p);
    assert At(s, InChannel(channel), p).Some?;
    assert RowOf(rows, channel) < |rows| by { if RowOf(rows, channel) == |rows| { EmptyHasNone(p); } }
    if FirstWith(rows, p).Some? {
      var c := FirstWith(rows, p).value;
      var i :| 0 <= i < |rows| && rows[i].key == c && Has(rows[i].value, p);
      RowIs(rows, c, i);
      assert At(s, InChannel(c), p).Some?;
    }
  }

  lemma EmptyHasNone(p: string)
    ensures Get([], p) == None && !Has([], p)
  {
  }

  /** A message appears at a place only through an event that stores it there. */
  lemma StepAppears(s: State, e: Event, place: Place, q: string)
    requires At(s, place, q).None?
    ensures At(Step(s, e), place, q).Some? <==> Stores(e) == Some((place, q))
    ensures e.Created? && Stores(e) == Some((place, q)) ==> At(Step(s, e), place, q) == Some(NewMessage(e))
  {
    hide Get, IndexOf, Put, Lookup, EditIn, ReactChannels, ReactThreads;
    GetHas(Messages(s, place), q);
    match e
    case Created(channel, id, _, _, _, _) =>
      var prev := Channel(s, channel);
      MessagesSet(s, channel, if Has(prev, id) then prev else prev + [NewMessage(e)], NO_THREAD, place);
      GetAppended(prev, NewMessage(e), q);
    case Updated(channel, id, text) =>
      var prev := Channel(s, channel);
      MessagesSet(s, channel, EditIn(prev, id, SetText(text)), NO_THREAD, place);
      GetEdited(prev, id, SetText(text), q);
    case Replied(_, _, _, _, _) => ReplyAppears(s, e, place, q);
    case Reacted(_, _, _, _) => ReactionAppears(s, e, place, q);
  }

  lemma ReplyAppears(s: State, e: Event, place: Place, q: string)
    requires e.Replied? && At(s, place, q).None?
    ensures At(OnReplied(s, e), place, q).Some? <==> Stores(e) == Some((place, q))
  {
    hide Get, IndexOf, Put, Lookup, EditIn, BumpChannel, FirstWith;
    GetHas(Messages(s, place), q);
    var t := ThreadOf(s, e.parent);
    MessagesSet(s, e.parent, [], t, place);
    EnteredAt(s, e, place, q);
    GetAppended(t.replies, NewReply(e, t), q);
    BumpHas(Entered(s, e), e.parent, place, q);
    if Has(t.replies, e.id) {
      assert OnReplied(s, e) == SetThread(s, e.parent, t);
    } else {
      assert OnReplied(s, e) == BumpChannel(Entered(s, e), e.parent);
    }
  }

  lemma BumpHas(s: State, p: string, place: Place, q: string)
    ensures At(BumpChannel(s, p), place, q).Some? <==> At(s, place, q).Some?
  {
    hide Get, IndexOf, Put, Lookup, EditIn, FirstWith;
    var first := FirstWith(s.channels, p);
    if first.Some? {
      var ms := Channel(s, first.value);
      MessagesSet(s, first.value, EditIn(ms, p, Bump), NO_THREAD, place);
      GetEdited(ms, p, Bump, q);
      GetHas(ms, q);
    }
  }

  lemma ReactionAppears(s: State, e: Event, place: Place, q: string)
    requires e.Reacted? && At(s, place, q).None?
    ensures At(Step(s, e), place, q).None?
  {
    hide Get, Lookup, Apply, EditIn, ReactChannels, ReactThreads;
    var edit := React(e.emoji, e.agent, e.removed);
    GetEdited(Messages(s, place), e.id, edit, q);
    GetHas(Messages(s, place), q);
    EmptyHasNone(q);
    match place
    case InChannel(channel) => LookupReactedChannels(s.channels, e.id, edit, channel);
    case InThread(id) => LookupReactedThreads(s.threads, e.id, edit, id);
  }

  /** The distinct replies to `p` in a stream. */
  ghost function ReplyIds(events: seq<Event>, p: string): set<string> {
    if events == [] then {}
    else
      var e := events[|events| - 1];
      ReplyIds(events[..|events| - 1], p) + if e.Replied? && e.parent == p then {e.id} else {}
  }

  lemma {:induction false} ThreadHoldsReplies(s: State, events: seq<Event>, p: string, id: string)
    ensures At(Run(s, events), InThread(p), id).Some? <==> At(s, InThread(p), id).Some? || id in ReplyIds(events, p)
  {
    hide At, Step, Apply;
    if events != [] {
      var before, e := events[..|events| - 1], events[|events| - 1];
      ThreadHoldsReplies(s, before, p, id);
      var t := Run(s, before);
      if At(t, InThread(p), id).Some? { StepAt(t, e, InThread(p), id); } else { StepAppears(t, e, InThread(p), id); }
    }
  }

  /** No event of the stream shows the message in another channel. */
  ghost predicate NotElsewhere(events: seq<Event>, channel: string, p: string) {
    forall i :: 0 <= i < |events| && events[i].Created? && events[i].id == p ==> events[i].channel == channel
  }

  lemma StepKeepsOnly(s: State, e: Event, channel: string, p: string)
    requires OnlyIn(s, channel, p) && (e.Created? && e.id == p ==> e.channel == channel)
    ensures OnlyIn(Step(s, e), channel, p)
  {
    hide At, Step, Apply;
    forall c ensures At(Step(s, e), InChannel(c), p).Some? <==> c == channel {
      if c == channel { StepAt(s, e, InChannel(c), p); } else { StepAppears(s, e, InChannel(c), p); }
    }
  }

  lemma {:induction false} RunKeepsOnly(s: State, events: seq<Event>, channel: string, p: string)
    requires OnlyIn(s, channel, p) && NotElsewhere(events, channel, p) && DistinctRows(s.channels) && DistinctRows(s.threads)
    ensures var t := Run(s, events); OnlyIn(t, channel, p) && DistinctRows(t.channels) && DistinctRows(t.threads)
  {
    hide OnlyIn, Step, DistinctRows;
    if events != [] {
      var before, e := events[..|events| - 1], events[|events| - 1];
      RunKeepsOnly(s, before, channel, p);
      StepKeepsOnly(Run(s, before), e, channel, p);
      StepKeepsDistinct(Run(s, before), e);
    }
  }

  ghost function Answered(s: State, p: string): set<string> {
    set m | m in ThreadOf(s, p).replies :: m.id
  }

  lemma AnsweredIsHeld(s: State, p: string, id: string)
    ensures id in Answered(s, p) <==> At(s, InThread(p), id).Some?
  {
    var ms := ThreadOf(s, p).replies;
    if id in Answered(s, p) {
      var m :| m in ms && m.id == id;
      var i :| 0 <= i < |ms| && ms[i] == m;
    }
  }

  /** A reply to `p` arrives that its thread does not hold yet. */
  ghost predicate FirstArrival(s: State, e: Event, p: string) {
    e.Replied? && e.parent == p && !Has(ThreadOf(s, p).replies, e.id)
  }

  /** The channel is the first in enumeration order to show `p`. */
  ghost predicate ShownFirst(s: State, channel: string, p: string) {
    FirstWith(s.channels, p) == Some(channel)
  }

  /** The replies of a run that the message in `channel` gets to count. */
  ghost function Credited(s: State, events: seq<Event>, channel: string, p: string): nat {
    if events == [] then 0
    else
      var before, e := events[..|events| - 1], events[|events| - 1];
      Credited(s, before, channel, p)
      + if FirstArrival(Run(s, before), e, p) && ShownFirst(Run(s, before), channel, p) then 1 else 0
  }

  /** Whenever a reply to `p` arrives for the first time, `channel` is the first to show `p`. */
  ghost predicate FirstAtArrivals(s: State, events: seq<Event>, channel: string, p: string) {
    forall i :: 0 <= i < |events| && FirstArrival(Run(s, events[..i]), events[i], p) ==>
      ShownFirst(Run(s, events[..i]), channel, p)
  }

  lemma FirstAtArrivalsSnoc(s: State, before: seq<Event>, e: Event, channel: string, p: string)
    ensures FirstAtArrivals(s, before + [e], channel, p) <==>
              FirstAtArrivals(s, before, channel, p)
              && (FirstArrival(Run(s, before), e, p) ==> ShownFirst(Run(s, before), channel, p))
  {
    hide Run, FirstArrival, ShownFirst;
    var events, n := before + [e], |before|;
    assert events[..n] == before && events[n] == e;
    assert forall i :: 0 <= i < n ==> events[..i] == before[..i] && events[i] == before[i];
    if FirstAtArrivals(s, events, channel, p) {
      forall i | 0 <= i < n && FirstArrival(Run(s, before[..i]), before[i], p) ensures ShownFirst(Run(s, before[..i]), channel, p) {
        assert FirstArrival(Run(s, events[..i]), events[i], p);
      }
      assert FirstArrival(Run(s, events[..n]), events[n], p) ==> ShownFirst(Run(s, events[..n]), channel, p);
    }
  }

  lemma ReplyCountStep(s: State, e: Event, channel: string, p: string)
    requires At(s, InChannel(channel), p).Some? && At(s, InChannel(channel), p).value.replyCount.Some?
    ensures var m := At(Step(s, e), InChannel(channel), p);
      m.Some? && m.value.replyCount == Some(At(s, InChannel(channel), p).value.replyCount.value
        + if FirstArrival(s, e, p) && ShownFirst(s, channel, p) then 1 else 0)
  {
    hide At, Step, FirstWith, AddReaction, RemoveReaction, Has;
    StepAt(s, e, InChannel(channel), p);
  }

  /** What a shown message counts over a run, whatever other channels show. */
  lemma {:induction false} ReplyCountIsCredited(s: State, events: seq<Event>, channel: string, p: string)
    requires At(s, InChannel(channel), p).Some? && At(s, InChannel(channel), p).value.replyCount.Some?
    ensures var m := At(Run(s, events), InChannel(channel), p);
      m.Some? && m.value.replyCount
        == Some(At(s, InChannel(channel), p).value.replyCount.value + Credited(s, events, channel, p))
  {
    hide At, Step, FirstArrival, ShownFirst;
    if events != [] {
      var before, e := events[..|events| - 1], events[|events| - 1];
      ReplyCountIsCredited(s, before, channel, p);
      ReplyCountStep(Run(s, before), e, channel, p);
    }
  }

  /** At most the distinct new replies are credited, and all of them exactly when the channel is
      the first to show the message at every first arrival. */
  lemma {:induction false} CreditedIff(s: State, events: seq<Event>, channel: string, p: string)
    ensures Credited(s, events, channel, p) <= |ReplyIds(events, p) - Answered(s, p)|
    ensures Credited(s, events, channel, p) == |ReplyIds(events, p) - Answered(s, p)| <==> FirstAtArrivals(s, events, channel, p)
  {
    hide Run, Answered, ShownFirst, FirstAtArrivals, Has, ThreadOf;
    if events == [] {
      assert ReplyIds(events, p) - Answered(s, p) == {};
      assert FirstAtArrivals(s, events, channel, p) by { NoArrivals(s, channel, p); }
    } else {
      var before, e := events[..|events| - 1], events[|events| - 1];
      CreditedIff(s, before, channel, p);
      assert before + [e] == events;
      FirstAtArrivalsSnoc(s, before, e, channel, p);
      if e.Replied? && e.parent == p {
        FreshIff(s, before, p, e.id);
        OneMore(ReplyIds(before, p), Answered(s, p), e.id);
      } else {
        assert ReplyIds(events, p) == ReplyIds(before, p);
      }
    }
  }

  lemma NoArrivals(s: State, channel: string, p: string)
    ensures FirstAtArrivals(s, [], channel, p)
  {
  }

  /** A shown message counts exactly the distinct replies that arrive and were not in its thread
      before, if and only if its channel is the first to show it at every first arrival. */
  lemma ReplyCountGrowsIff(s: State, events: seq<Event>, channel: string, p: string)
    requires At(s, InChannel(channel), p).Some? && At(s, InChannel(channel), p).value.replyCount.Some?
    ensures var m := At(Run(s, events), InChannel(channel), p);
      && m.Some? && m.value.replyCount.Some?
      && (m.value.replyCount.value
            == At(s, InChannel(channel), p).value.replyCount.value + |ReplyIds(events, p) - Answered(s, p)|
          <==> FirstAtArrivals(s, events, channel, p))
  {
    hide At, Run, FirstAtArrivals, Answered, ReplyIds;
    ReplyCountIsCredited(s, events, channel, p);
    CreditedIff(s, events, channel, p);
  }

  /** A message that no other channel shows is always shown first. */
  lemma OnlyInIsFirst(s: State, events: seq<Event>, channel: string, p: string)
    requires OnlyIn(s, channel, p) && NotElsewhere(events, channel, p) && DistinctRows(s.channels) && DistinctRows(s.threads)
    ensures FirstAtArrivals(s, events, channel, p)
  {
    hide Run, OnlyIn, DistinctRows, FirstArrival, FirstWith;
    forall i | 0 <= i < |events| && FirstArrival(Run(s, events[..i]), events[i], p) ensures ShownFirst(Run(s, events[..i]), channel, p) {
      RunKeepsOnly(s, events[..i], channel, p);
      FirstWithIsOnly(Run(s, events[..i]), channel, p);
    }
  }

  lemma FreshIff(s: State, events: seq<Event>, p: string, id: string)
    ensures Has(ThreadOf(Run(s, events), p).replies, id) <==> id in Answered(s, p) || id in ReplyIds(events, p)
  {
    ThreadHoldsReplies(s, events, p, id);
    AnsweredIsHeld(s, p, id);
    GetHas(ThreadOf(Run(s, events), p).replies, id);
  }

  lemma OneMore(a: set<string>, b: set<string>, id: string)
    ensures |(a + {id}) - b| == |a - b| + if id in a || id in b then 0 else 1
  {
    if id in a || id in b { assert (a + {id}) - b == a - b; }
    else { assert (a + {id}) - b == (a - b) + {id}; }
  }

  lemma {:induction false} RunSplits(s: State, a: seq<Event>, b: seq<Event>)
    ensures Run(s, a + b) == Run(Run(s, a), b)
  {
    if b == [] { assert a + b == a; }
    else {
      RunSplits(s, a, b[..|b| - 1]);
      assert (a + b)[..|a + b| - 1] == a + b[..|b| - 1];
    }
  }

  lemma {:induction false} NeverShown(events: seq<Event>, place: Place, q: string)
    requires forall i :: 0 <= i < |events| ==> Stores(events[i]) != Some((place, q))
    ensures At(Run(EMPTY, events), place, q).None?
  {
    hide At, Step, Stores;
    if events != [] {
      NeverShown(events[..|events| - 1], place, q);
      StepAppears(Run(EMPTY, events[..|events| - 1]), events[|events| - 1], place, q);
    } else {
      EmptyStore(place, q);
    }
  }

  lemma EmptyStore(place: Place, q: string)
    ensures At(EMPTY, place, q) == None
  {
    EmptyHasNone(q);
  }

  lemma {:induction false} RunIsDistinct(events: seq<Event>)
    ensures DistinctRows(Run(EMPTY, events).channels) && DistinctRows(Run(EMPTY, events).threads)
  {
    hide Step;
    if events != [] {
      RunIsDistinct(events[..|events| - 1]);
      StepKeepsDistinct(Run(EMPTY, events[..|events| - 1]), events[|events| - 1]);
    }
  }

  /** What a message that is new to its channel looks like right after it was added. */
  lemma AddedMessage(before: seq<Event>, created: Event)
    requires created.Created?
    requires forall i :: 0 <= i < |before| ==> Stores(before[i]) != Stores(created)
    ensures var s := Run(EMPTY, before + [created]);
      && At(s, InChannel(created.channel), created.id) == Some(NewMessage(created))
      && Answered(s, created.id) == ReplyIds(before, created.id)
  {
    hide At, Step, Answered;
    var s, p := Run(EMPTY, before), created.id;
    assert (before + [created])[..|before|] == before;
    NeverShown(before, InChannel(created.channel), p);
    StepAppears(s, created, InChannel(created.channel), p);
    forall id ensures id in Answered(Step(s, created), p) <==> id in ReplyIds(before, p) { AnsweredAfter(before, created, id); }
    assert Answered(Step(s, created), p) == ReplyIds(before, p);
  }

  /** Over every stream: the reply count of a message is the number of distinct replies first
      received since the message was added, if and only if its channel is the first in
      enumeration order to show the id whenever such a reply arrives for the first time. */
  lemma ReplyCountIsRepliesSinceAddedIff(before: seq<Event>, created: Event, after: seq<Event>)
    requires created.Created?
    requires forall i :: 0 <= i < |before| ==> Stores(before[i]) != Stores(created)
    ensures var m := At(Run(EMPTY, before + [created] + after), InChannel(created.channel), created.id);
      && m.Some?
      && (m.value.replyCount == Some(|ReplyIds(after, created.id) - ReplyIds(before, created.id)|)
          <==> FirstAtArrivals(Run(EMPTY, before + [created]), after, created.channel, created.id))
  {
    hide At, Run, Answered, ReplyIds, FirstAtArrivals;
    AddedMessage(before, created);
    RunSplits(EMPTY, before + [created], after);
    ReplyCountGrowsIff(Run(EMPTY, before + [created]), after, created.channel, created.id);
  }

  /** In particular wherever message ids are unique across channels. */
  lemma ReplyCountIsRepliesSinceAdded(before: seq<Event>, created: Event, after: seq<Event>)
    requires created.Created?
    requires forall i :: 0 <= i < |before| && before[i].Created? ==> before[i].id != created.id
    requires NotElsewhere(after, created.channel, created.id)
    ensures var m := At(Run(EMPTY, before + [created] + after), InChannel(created.channel), created.id);
      m.Some? && m.value.replyCount == Some(|ReplyIds(after, created.id) - ReplyIds(before, created.id)|)
  {
    hide At, Step, DistinctRows, FirstAtArrivals;
    var c, p := created.channel, created.id;
    var s := Run(EMPTY, before);
    assert (before + [created])[..|before|] == before;
    var t := Run(EMPTY, before + [created]);
    forall d ensures At(t, InChannel(d), p).Some? <==> d == c {
      NeverShown(before, InChannel(d), p);
      StepAppears(s, created, InChannel(d), p);
    }
    RunIsDistinct(before + [created]);
    OnlyInIsFirst(t, after, c, p);
    ReplyCountIsRepliesSinceAddedIff(before, created, after);
  }

  lemma AnsweredAfter(before: seq<Event>, created: Event, id: string)
    requires created.Created?
    ensures id in Answered(Step(Run(EMPTY, before), created), created.id) <==> id in ReplyIds(before, created.id)
  {
    hide At, Step, Answered;
    var s, p := Run(EMPTY, before), created.id;
    AnsweredIsHeld(Step(s, created), p, id);
    ThreadHoldsReplies(EMPTY, before, p, id);
    EmptyStore(InThread(p), id);
    if At(s, InThread(p), id).Some? { StepAt(s, created, InThread(p), id); } else { StepAppears(s, created, InThread(p), id); }
  }

  lemma PutFirst<V>(key: string, value: V)
    ensures Put([], key, value) == [Row(key, value)]
  {
  }

  lemma PutSecond<V>(row: Row<V>, key: string, value: V)
    requires row.key != key && !CanonicalJson.IsIndex(key)
    ensures Put([row], key, value) == [row, Row(key, value)]
  {
    var rows := [row];
    assert rows[1..] == [] && PlaceOf(rows[1..], key) == 0 && PlaceOf(rows, key) == 1;
    assert RowOf(rows, key) == 1;
  }

  const IN_GENERAL := Created("general", "m", "ann", None, "hi", [])
  const IN_RANDOM := Created("random", "m", "ann", None, "hi", [])
  const THE_REPLY := Replied("m", "r", "bob", None, "yo")

  lemma TwoChannels()
    ensures Run(EMPTY, [IN_GENERAL, IN_RANDOM])
            == State([Row("general", [NewMessage(IN_GENERAL)]), Row("random", [NewMessage(IN_RANDOM)])], [])
  {
    hide Put, PlaceOf;
    var a, b := IN_GENERAL, IN_RANDOM;
    assert [a][..0] == [] && [a, b][..1] == [a];
    EmptyHasNone("m");
    PutFirst("general", [NewMessage(a)]);
    var rows := [Row("general", [NewMessage(a)])];
    assert Channel(EMPTY, "general") == [] && [] + [NewMessage(a)] == [NewMessage(a)];
    assert Run(EMPTY, [a]) == State(rows, []);
    assert Lookup(rows, "random") == None;
    assert !CanonicalJson.IsIndex("random") by { assert "random"[0] == 'r'; }
    PutSecond(rows[0], "random", [NewMessage(b)]);
    assert Channel(State(rows, []), "random") == [] && [] + [NewMessage(b)] == [NewMessage(b)];
  }

  lemma TwoChannelsAt()
    ensures var s := Run(EMPTY, [IN_GENERAL, IN_RANDOM]);
      && At(s, InChannel("general"), "m") == Some(NewMessage(IN_GENERAL))
      && At(s, InChannel("random"), "m") == Some(NewMessage(IN_RANDOM))
      && FirstWith(s.channels, "m") == Some("general") && !Has(ThreadOf(s, "m").replies, "r")
  {
    TwoChannels();
    hide Run, PlaceOf;
    var rows := Run(EMPTY, [IN_GENERAL, IN_RANDOM]).channels;
    assert "general"[0] == 'g' && "random"[0] == 'r';
    RowIs(rows, "general", 0);
    RowIs(rows, "random", 1);
    IndexIs(rows[0].value, "m", 0);
    IndexIs(rows[1].value, "m", 0);
    EmptyHasNone("r");
  }

  /** A stream after which two channels show one id: the first counts the reply and is right,
      the second counts nothing and is wrong. */
  lemma SharedIdIsCountedOnce()
    ensures var s := Run(EMPTY, [IN_GENERAL, IN_RANDOM, THE_REPLY]);
      && At(s, InChannel("general"), "m").Some? && At(s, InChannel("random"), "m").Some?
      && At(s, InChannel("general"), "m").value.replyCount == Some(1)
      && At(s, InChannel("random"), "m").value.replyCount == Some(0)
      && |ReplyIds([THE_REPLY], "m")| == 1
  {
    hide Step, At, FirstWith, Has, ThreadOf, AddReaction, RemoveReaction;
    var r := THE_REPLY;
    var s := Run(EMPTY, [IN_GENERAL, IN_RANDOM]);
    assert [IN_GENERAL, IN_RANDOM, r][..2] == [IN_GENERAL, IN_RANDOM] && [r][..0] == [];
    TwoChannelsAt();
    assert "general"[0] == 'g' && "random"[0] == 'r';
    StepAt(s, r, InChannel("general"), "m");
    StepAt(s, r, InChannel("random"), "m");
    assert ReplyIds([r], "m") == {"r"};
  }

  // ---- the store as the source holds it -------------------------------------------------

  lemma ReplaceRow<V>(rows: seq<Row<V>>, i: nat, value: V)
    requires DistinctRows(rows) && i < |rows|
    ensures Lookup(rows, rows[i].key) == Some(rows[i].value)
    ensures Put(rows, rows[i].key, value) == rows[i := Row(rows[i].key, value)]
  {
    RowIs(rows, rows[i].key, i);
  }

  lemma {:induction false} FirstWithAt(rows: seq<Row<seq<Message>>>, i: nat, p: string)
    requires i <= |rows| && forall j :: 0 <= j < i ==> !Has(rows[j].value, p)
    ensures i == |rows| ==> FirstWith(rows, p) == None
    ensures i < |rows| && Has(rows[i].value, p) ==> FirstWith(rows, p) == Some(rows[i].key)
  {
    if i > 0 { FirstWithAt(rows[1..], i - 1, p); }
  }

  class RelayStore {
    var channels: seq<Row<seq<Message>>>
    var threads: seq<Row<Thread>>

    ghost predicate Valid()
      reads this
    {
      DistinctRows(channels) && DistinctRows(threads)
    }

    ghost function View(): State
      reads this
    {
      State(channels, threads)
    }

    constructor ()
      ensures Valid() && View() == EMPTY
    {
      channels, threads := [], [];
    }

    method UpdateChannelMessages(channel: string, updater: seq<Message> -> seq<Message>)
      modifies this`channels
      ensures View() == SetChannel(old(View()), channel, updater(Channel(old(View()), channel)))
    {
      var prev := Lookup(channels, channel).GetOr([]);
      channels := Put(channels, channel, updater(prev));
    }

    method UpdateThread(id: string, updater: Thread -> Thread)
      modifies this`threads
      ensures View() == SetThread(old(View()), id, updater(ThreadOf(old(View()), id)))
    {
      var prev := Lookup(threads, id).GetOr(NO_THREAD);
      threads := Put(threads, id, updater(prev));
    }

    method HandleMessageCreated(e: Event)
      requires e.Created?
      modifies this
      ensures View() == OnCreated(old(View()), e)
    {
      UpdateChannelMessages(e.channel, prev => if Has(prev, e.id) then prev else prev + [NewMessage(e)]);
    }

    method HandleMessageUpdated(e: Event)
      requires e.Updated?
      modifies this
      ensures View() == Step(old(View()), e)
    {
      UpdateChannelMessages(e.channel, prev => EditIn(prev, e.id, SetText(e.text)));
    }

    method HandleThreadReply(e: Event)
      requires e.Replied? && Valid()
      modifies this
      ensures View() == OnReplied(old(View()), e)
    {
      hide Put, RowOf, EditIn, NewReply, Has;
      ghost var was := View();
      var t := Lookup(threads, e.parent).GetOr(NO_THREAD);
      var inserted := !Has(t.replies, e.id);
      UpdateThread(e.parent, (prev: Thread) => if Has(prev.replies, e.id) then prev
                                     else prev.(replies := prev.replies + [NewReply(e, prev)]));
      if !inserted { return; }
      UpdateThread(e.parent, prev => BumpParent(prev));
      ghost var entered := View();
      var i := 0;
      while i < |channels|
        invariant i <= |channels| && View() == entered
        invariant forall j :: 0 <= j < i ==> !Has(channels[j].value, e.parent)
      {
        FirstWithAt(channels, i, e.parent);
        if Has(channels[i].value, e.parent) {
          UpdateChannelMessages(channels[i].key, prev => EditIn(prev, e.parent, Bump));
          return;
        }
        i := i + 1;
      }
      FirstWithAt(channels, i, e.parent);
    }

    method HandleMessageReacted(e: Event)
      requires e.Reacted? && Valid()
      modifies this
      ensures View() == Step(old(View()), e)
    {
      hide Put, RowOf, EditIn, ReactInThread, Lookup;
      var edit := React(e.emoji, e.agent, e.removed);
      var i := 0;
      while i < |channels|
        invariant i <= |channels| == |old(channels)| && threads == old(threads) && DistinctRows(channels)
        invariant forall j :: 0 <= j < i ==> channels[j] == Row(old(channels)[j].key, EditIn(old(channels)[j].value, e.id, edit))
        invariant forall j :: i <= j < |channels| ==> channels[j] == old(channels)[j]
      {
        ReplaceRow(channels, i, EditIn(channels[i].value, e.id, edit));
        UpdateChannelMessages(channels[i].key, prev => EditIn(prev, e.id, edit));
        i := i + 1;
      }
      assert channels == ReactChannels(old(channels), e.id, edit);
      i := 0;
      while i < |threads|
        invariant i <= |threads| == |old(threads)| && channels == ReactChannels(old(channels), e.id, edit) && DistinctRows(threads)
        invariant forall j :: 0 <= j < i ==> threads[j] == Row(old(threads)[j].key, ReactInThread(old(threads)[j].value, e.id, edit))
        invariant forall j :: i <= j < |threads| ==> threads[j] == old(threads)[j]
      {
        ReplaceRow(threads, i, ReactInThread(threads[i].value, e.id, edit));
        UpdateThread(threads[i].key, prev => ReactInThread(prev, e.id, edit));
        i := i + 1;
      }
      assert threads == ReactThreads(old(threads), e.id, edit);
    }

    method HandleServerEvent(e: Event)
      requires Valid()
      modifies this
      ensures Valid() && View() == Step(old(View()), e)
    {
      hide DistinctRows;
      StepKeepsDistinct(View(), e);
      match e
      case Created(_, _, _, _, _, _) => HandleMessageCreated(e);
      case Updated(_, _, _) => HandleMessageUpdated(e);
      case Replied(_, _, _, _, _) => HandleThreadReply(e);
      case Reacted(_, _, _, _) => HandleMessageReacted(e);
    }
  }
}
