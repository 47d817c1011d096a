/** What the store shows: which messages, in which order, by whom and with what text. */
module StoreContents {
  import opened Wrappers
  import opened ReactStore

  ghost function Ids(ms: seq<Message>): (r: seq<string>)
    ensures |r| == |ms| && forall i :: 0 <= i < |ms| ==> r[i] == ms[i].id
  {
    seq(|ms|, i requires 0 <= i < |ms| => ms[i].id)
  }

  lemma HasIsListed(ms: seq<Message>, q: string)
    ensures Has(ms, q) <==> q in Ids(ms)
  {
    if q in Ids(ms) {
      var i :| 0 <= i < |ms| && Ids(ms)[i] == q;
    }
  }

  // ---- new messages ---------------------------------------------------------------------

  /** A message that is new to its channel appears at the end, with the event's id, author and
      text, no replies and no reactions. */
  lemma CreatedIsAppended(s: State, e: Event)
    requires e.Created? && e.id !in Ids(Messages(s, InChannel(e.channel)))
    ensures var was, now := Messages(s, InChannel(e.channel)), Messages(Step(s, e), InChannel(e.channel));
      && |now| == |was| + 1 && now[..|was|] == was
      && var m := now[|was|];
         && m.id == e.id && m.channelId == e.channel && m.agentName == e.agentName && m.text == e.text
         && m.agentId == (if e.agentId.Some? then e.agentId.value else "") && m.attachments == e.attachments
         && m.threadId == None && m.replyCount == Some(0) && m.reactions == []
  {
    hide Put, Lookup, IndexOf;
    var prev := Channel(s, e.channel);
    HasIsListed(prev, e.id);
    MessagesSet(s, e.channel, prev + [NewMessage(e)], NO_THREAD, InChannel(e.channel));
  }

  /** A reply that is new to its thread appears at its end, with the event's id, author and text;
      it belongs to the thread and to the channel of the thread's parent, where that is known. */
  lemma RepliedIsAppended(s: State, e: Event)
    requires e.Replied? && e.id !in Ids(Messages(s, InThread(e.parent)))
    ensures var was, now := Messages(s, InThread(e.parent)), Messages(Step(s, e), InThread(e.parent));
      && |now| == |was| + 1 && now[..|was|] == was
      && var m := now[|was|];
         && m.id == e.id && m.agentName == e.agentName && m.text == e.text && m.threadId == Some(e.parent)
         && m.agentId == (if e.agentId.Some? then e.agentId.value else "") && m.attachments == []
         && m.channelId == (if ThreadOf(s, e.parent).parent.Some? then ThreadOf(s, e.parent).parent.value.channelId else "")
         && m.replyCount == Some(0) && m.reactions == []
  {
    hide Put, Lookup, IndexOf, FirstWith, EditIn;
    var t := ThreadOf(s, e.parent);
    HasIsListed(t.replies, e.id);
    EnteredAt(s, e, InThread(e.parent), e.id);
    ThreadsAreNotBumped(Entered(s, e), e.parent, InThread(e.parent));
    assert OnReplied(s, e) == BumpChannel(Entered(s, e), e.parent);
  }

  lemma ThreadsAreNotBumped(s: State, p: string, place: Place)
    requires place.InThread?
    ensures Messages(BumpChannel(s, p), place) == Messages(s, place)
  {
    hide Put, Lookup, EditIn, FirstWith;
    var first := FirstWith(s.channels, p);
    if first.Some? { MessagesSet(s, first.value, EditIn(Channel(s, first.value), p, Bump), NO_THREAD, place); }
  }

  // ---- the order ------------------------------------------------------------------------

  lemma EditedIds(ms: seq<Message>, id: string, edit: Edit)
    ensures Ids(EditIn(ms, id, edit)) == Ids(ms)
  {
    hide IndexOf, AddReaction, RemoveReaction;
  }

  /** An event lists at most one more id, at the end, and never loses or moves one. */
  lemma StepIds(s: State, e: Event, place: Place)
    ensures var was := Ids(Messages(s, place));
      Ids(Messages(Step(s, e), place))
      == if Stores(e).Some? && Stores(e).value.0 == place && Stores(e).value.1 !in was then was + [Stores(e).value.1] else was
  {
    match e
    case Created(_, _, _, _, _, _) => CreatedIds(s, e, place);
    case Updated(_, _, _) => UpdatedIds(s, e, place);
    case Replied(_, _, _, _, _) => RepliedIds(s, e, place);
    case Reacted(_, _, _, _) => ReactedIds(s, e, place);
  }

  lemma CreatedIds(s: State, e: Event, place: Place)
    requires e.Created?
    ensures var was := Ids(Messages(s, place));
      Ids(Messages(Step(s, e), place)) == if place == InChannel(e.channel) && e.id !in was then was + [e.id] else was
  {
    hide Put, Lookup, IndexOf;
    var prev := Channel(s, e.channel);
    HasIsListed(prev, e.id);
    MessagesSet(s, e.channel, if Has(prev, e.id) then prev else prev + [NewMessage(e)], NO_THREAD, place);
  }

  lemma UpdatedIds(s: State, e: Event, place: Place)
    requires e.Updated?
    ensures Ids(Messages(Step(s, e), place)) == Ids(Messages(s, place))
  {
    hide Put, Lookup, IndexOf, EditIn;
    var prev := Channel(s, e.channel);
    EditedIds(prev, e.id, SetText(e.text));
    MessagesSet(s, e.channel, EditIn(prev, e.id, SetText(e.text)), NO_THREAD, place);
  }

  lemma BumpedIds(s: State, p: string, place: Place)
    ensures Ids(Messages(BumpChannel(s, p), place)) == Ids(Messages(s, place))
  {
    hide Put, Lookup, EditIn, FirstWith;
    var first := FirstWith(s.channels, p);
    if first.Some? {
      EditedIds(Channel(s, first.value), p, Bump);
      MessagesSet(s, first.value, EditIn(Channel(s, first.value), p, Bump), NO_THREAD, place);
    }
  }

  lemma RepliedIds(s: State, e: Event, place: Place)
    requires e.Replied?
    ensures var was := Ids(Messages(s, place));
      Ids(Messages(Step(s, e), place)) == if place == InThread(e.parent) && e.id !in was then was + [e.id] else was
  {
    hide Put, Lookup, IndexOf, FirstWith, EditIn, BumpChannel;
    var t := ThreadOf(s, e.parent);
    HasIsListed(t.replies, e.id);
    MessagesSet(s, e.parent, [], t, place);
    EnteredAt(s, e, place, e.id);
    BumpedIds(Entered(s, e), e.parent, place);
    assert OnReplied(s, e) == if Has(t.replies, e.id) then SetThread(s, e.parent, t) else BumpChannel(Entered(s, e), e.parent);
  }

  lemma ReactedIds(s: State, e: Event, place: Place)
    requires e.Reacted?
    ensures Ids(Messages(Step(s, e), place)) == Ids(Messages(s, place))
  {
    hide Lookup, EditIn, ReactChannels, ReactThreads;
    var edit := React(e.emoji, e.agent, e.removed);
    EditedIds(Messages(s, place), e.id, edit);
    match place
    case InChannel(channel) => LookupReactedChannels(s.channels, e.id, edit, channel);
    case InThread(id) => LookupReactedThreads(s.threads, e.id, edit, id);
  }

  /** The ids a stream stores at a place, each when it comes first. */
  ghost function FirstComeIds(events: seq<Event>, place: Place): seq<string> {
    if events == [] then []
    else
      var before, e := FirstComeIds(events[..|events| - 1], place), events[|events| - 1];
      match e
      case Created(channel, id, _, _, _, _) => if place == InChannel(channel) && id !in before then before + [id] else before
      case Replied(parent, id, _, _, _) => if place == InThread(parent) && id !in before then before + [id] else before
      case _ => before
  }

  /** Every timeline and every thread lists its messages once, in the order they first came. */
  lemma {:induction false} ListedInOrder(events: seq<Event>, place: Place)
    ensures Ids(Messages(Run(EMPTY, events), place)) == FirstComeIds(events, place)
  {
    hide Step, Messages;
    if events != [] {
      var before, e := events[..|events| - 1], events[|events| - 1];
      ListedInOrder(before, place);
      StepIds(Run(EMPTY, before), e, place);
    } else {
      NothingListed(place);
    }
  }

  lemma NothingListed(place: Place)
    ensures Messages(EMPTY, place) == []
  {
  }

  // ---- the text -------------------------------------------------------------------------

  /** The text after a stream of events: that of the last update of the message in the channel. */
  ghost function LatestText(events: seq<Event>, place: Place, q: string, first: string): string {
    if events == [] then first
    else
      var e := events[|events| - 1];
      if e.Updated? && e.id == q && place == InChannel(e.channel) then e.text
      else LatestText(events[..|events| - 1], place, q, first)
  }

  /** Over every run a stored message keeps its author, its place and its attachments, and shows
      the text of its last update. */
  lemma {:induction false} ShowsLatestText(s: State, events: seq<Event>, place: Place, q: string)
    requires At(s, place, q).Some?
    ensures At(Run(s, events), place, q).Some?
    ensures var m, first := At(Run(s, events), place, q).value, At(s, place, q).value;
      && m.text == LatestText(events, place, q, first.text)
      && m.id == first.id && m.agentName == first.agentName && m.agentId == first.agentId && m.channelId == first.channelId
      && m.threadId == first.threadId && m.attachments == first.attachments
  {
    hide At, Step, AddReaction, RemoveReaction, FirstWith;
    if events != [] {
      var before, e := events[..|events| - 1], events[|events| - 1];
      ShowsLatestText(s, before, place, q);
      StepAt(Run(s, before), e, place, q);
    }
  }

  /** From the empty store: a created message shows its author and the text of its last update,
      else its own. */
  lemma CreatedShows(before: seq<Event>, created: Event, after: seq<Event>)
    requires created.Created?
    requires forall i :: 0 <= i < |before| && before[i].Created? ==> before[i].channel != created.channel || before[i].id != created.id
    ensures var m := At(Run(EMPTY, before + [created] + after), InChannel(created.channel), created.id);
      && m.Some? && m.value.id == created.id && m.value.agentName == created.agentName && m.value.channelId == created.channel
      && m.value.attachments == created.attachments
      && m.value.text == LatestText(after, InChannel(created.channel), created.id, created.text)
  {
    hide At, Run, LatestText;
    AddedMessage(before, created);
    RunSplits(EMPTY, before + [created], after);
    ShowsLatestText(Run(EMPTY, before + [created]), after, InChannel(created.channel), created.id);
  }

  /** A reaction, an update, a reply or a message for one place leaves messages with other ids,
      and other places, as they were. */
  lemma OthersAreUntouched(s: State, e: Event, place: Place, q: string)
    requires At(s, place, q).Some?
    requires match e
      case Created(_, _, _, _, _, _) => true
      case Updated(channel, id, _) => id != q || place != InChannel(channel)
      case Replied(parent, _, _, _, _) => parent != q || place.InThread?
      case Reacted(id, _, _, _) => id != q
    ensures At(Step(s, e), place, q) == At(s, place, q)
  {
    hide At, Step, FirstWith;
    StepAt(s, e, place, q);
  }

  // ---- the parent kept with a thread ----------------------------------------------------

  /** A new reply counts on the parent kept with its thread, if that has a count; nothing else
      about the parent changes, and a repeat changes nothing. */
  lemma ParentCountsReplies(s: State, e: Event)
    requires e.Replied? && ThreadOf(s, e.parent).parent.Some?
    ensures var was, now := ThreadOf(s, e.parent).parent.value, ThreadOf(Step(s, e), e.parent).parent;
      && now.Some? && now.value.(replyCount := was.replyCount) == was
      && now.value.replyCount == if was.replyCount.Some? && e.id !in Ids(Messages(s, InThread(e.parent)))
                                 then Some(was.replyCount.value + 1) else was.replyCount
  {
    hide Put, Lookup, IndexOf, FirstWith, EditIn, BumpChannel;
    var t := ThreadOf(s, e.parent);
    HasIsListed(t.replies, e.id);
    MessagesSet(s, e.parent, [], t, InThread(e.parent));
    var u := t.(replies := t.replies + [NewReply(e, t)]);
    MessagesSet(s, e.parent, [], u, InThread(e.parent));
    MessagesSet(SetThread(s, e.parent, u), e.parent, [], BumpParent(u), InThread(e.parent));
    BumpKeepsThreads(Entered(s, e), e.parent);
    assert OnReplied(s, e) == if Has(t.replies, e.id) then SetThread(s, e.parent, t) else BumpChannel(Entered(s, e), e.parent);
  }

  lemma BumpKeepsThreads(s: State, p: string)
    ensures BumpChannel(s, p).threads == s.threads
  {
    hide Put, EditIn, FirstWith;
  }

  /** A reaction to a thread's parent changes the kept copy's reactions, unless a reply of the
      thread has the same id; every other parent stays as it is. */
  lemma ParentIsReacted(s: State, e: Event, thread: string)
    requires e.Reacted? && ThreadOf(s, thread).parent.Some?
    ensures var was, now := ThreadOf(s, thread).parent.value, ThreadOf(Step(s, e), thread).parent;
      && now.Some? && now.value.(reactions := was.reactions) == was
      && now.value.reactions ==
           if was.id == e.id && e.id !in Ids(ThreadOf(s, thread).replies)
           then (if e.removed then RemoveReaction(was.reactions, e.emoji, e.agent) else AddReaction(was.reactions, e.emoji, e.agent))
           else was.reactions
  {
    hide Lookup, EditIn, ReactChannels, ReactThreads, RemoveReaction, AddReaction;
    HasIsListed(ThreadOf(s, thread).replies, e.id);
    LookupReactedThreads(s.threads, e.id, React(e.emoji, e.agent, e.removed), thread);
  }
}
