/** The piped pair of packages/actors-gateway/src/ws.ts: what `pipe` forwards between a client
    and its actor, what it drops, how much it lets pile up, and how it relays a close.

    The two sockets belong to the `ws` library; what the bridge sees of them is their ready
    state and their queue of unsent bytes.  Frames are numbered in the order their sender sent
    them, so that "in order" and "without gaps" are statements about numbers. */
module FramePipe {
  import opened Wrappers
  import opened CloseReason

  datatype Ready = Opened | Closing | Closed

  datatype Close = Close(code: int, reason: seq<Scalar>)

  /** `toClient` and `toActor` list the numbers of the frames forwarded, oldest first. */
  datatype Pipe = Pipe(
    client: Ready, upstream: Ready,
    clientQueue: nat, upstreamQueue: nat,
    fromActor: nat, toClient: seq<nat>,
    fromClient: nat, toActor: seq<nat>,
    closeToClient: Option<Close>, closeToActor: Option<Close>,
    listed: bool, alive: bool)

  const START := Pipe(Opened, Opened, 0, 0, 0, [], 0, [], None, None, true, true)

  /** Queue and frame limits in bytes: `maxBufferedBytes` and the two `maxPayload` options. */
  datatype Limits = Limits(buffered: nat, clientFrame: nat, actorFrame: nat)

  datatype Event =
    | ActorText(size: nat)
    | ActorBinary(data: seq<Byte>)   // forwarded as the text its bytes decode to
    | ClientText(size: nat)
    | ClientBinary
    | ClientReads(bytes: nat)        // the client's queue drains
    | ActorReads(bytes: nat)
    | ActorClosed(code: int, reason: seq<Scalar>)
    | ClientClosed(code: int, reason: seq<Scalar>)
    | Restart                        // closeAll, as the server's shutdown calls it
    | Terminate                      // terminateAll
    | Ping                           // the ping interval elapsed
    | Pong

  function CloseTheClient(p: Pipe, close: Close): Pipe {
    if p.client == Opened then p.(client := Closing, closeToClient := Some(close)) else p
  }

  function CloseTheActor(p: Pipe, close: Close): Pipe {
    if p.upstream == Opened then p.(upstream := Closing, closeToActor := Some(close)) else p
  }

  /** `terminate`: the connection ends without a close frame; the close event follows. */
  function Drop(p: Pipe): Pipe {
    if p.client == Opened then p.(client := Closing) else p
  }

  /** An actor's frame, with its size as it would be sent on. */
  function OnActorFrame(l: Limits, p: Pipe, size: nat): Pipe {
    var q := p.(fromActor := p.fromActor + 1);
    if p.client != Opened then q
    else if p.clientQueue > l.buffered then CloseTheClient(q, Close(1013, Ascii("slow consumer")))
    else q.(toClient := p.toClient + [p.fromActor], clientQueue := p.clientQueue + size)
  }

  /** A text frame meets an actor that is not keeping up. */
  predicate SlowUpstream(l: Limits, p: Pipe, ev: Event) {
    ev.ClientText? && Enabled(l, p, ev) && p.upstream == Opened && p.upstreamQueue > l.buffered
  }

  predicate Forwards(l: Limits, p: Pipe, ev: Event) {
    ev.ClientText? && Enabled(l, p, ev) && p.upstream == Opened && p.upstreamQueue <= l.buffered
  }

  function OnClientText(l: Limits, p: Pipe, size: nat): Pipe {
    var q := p.(fromClient := p.fromClient + 1);
    if p.upstream != Opened then q
    else if p.upstreamQueue > l.buffered then CloseTheClient(q, Close(1013, Ascii("slow upstream")))
    else q.(toActor := p.toActor + [p.fromClient], upstreamQueue := p.upstreamQueue + size)
  }

  function OnActorClosed(p: Pipe, code: int, reason: seq<Scalar>): Pipe {
    CloseTheClient(p.(upstream := Closed, listed := false), Close(SendableCloseCode(code), ReasonToRelay(reason)))
  }

  function OnClientClosed(p: Pipe, code: int, reason: seq<Scalar>): Pipe {
    CloseTheActor(p.(client := Closed, listed := false), Close(SendableCloseCode(code), ReasonToRelay(reason)))
  }

  /** A closed socket emits nothing more; the library refuses larger frames. */
  predicate Enabled(l: Limits, p: Pipe, ev: Event) {
    match ev
    case ActorText(size) => p.upstream != Closed && size <= l.actorFrame
    case ActorBinary(data) => p.upstream != Closed && |data| <= l.actorFrame
    case ClientText(size) => p.client != Closed && size <= l.clientFrame
    case ClientBinary => p.client != Closed
    case ClientReads(bytes) => bytes <= p.clientQueue
    case ActorReads(bytes) => bytes <= p.upstreamQueue
    case ActorClosed(_, _) => p.upstream != Closed
    case ClientClosed(_, _) => p.client != Closed
    case Restart => p.listed
    case Terminate => p.listed
    case Ping => p.listed
    case Pong => p.client != Closed
  }

  function Step(l: Limits, p: Pipe, ev: Event): Pipe {
    if !Enabled(l, p, ev) then p
    else match ev
      case ActorText(size) => OnActorFrame(l, p, size)
      case ActorBinary(data) => OnActorFrame(l, p, ByteLength(Decode(data)))
      case ClientText(size) => OnClientText(l, p, size)
      case ClientBinary => CloseTheClient(p, Close(1003, Ascii("text frames only")))
      case ClientReads(bytes) => p.(clientQueue := p.clientQueue - bytes)
      case ActorReads(bytes) => p.(upstreamQueue := p.upstreamQueue - bytes)
      case ActorClosed(code, reason) => OnActorClosed(p, code, reason)
      case ClientClosed(code, reason) => OnClientClosed(p, code, reason)
      case Restart => CloseTheClient(p, Close(1012, Ascii("gateway restarting")))
      case Terminate => Drop(p)
      case Ping => if p.alive then p.(alive := false) else Drop(p)
      case Pong => p.(alive := true)
  }

  function Run(l: Limits, events: seq<Event>): Pipe {
    if events == [] then START else Step(l, Run(l, events[..|events| - 1]), events[|events| - 1])
  }

  // ---- every run ------------------------------------------------------------------------

  ghost predicate Increasing(xs: seq<nat>, bound: nat) {
    && (forall i :: 0 <= i < |xs| ==> xs[i] < bound)
    && (forall i, j :: 0 <= i < j < |xs| ==> xs[i] < xs[j])
  }

  /** The first frames, all of them. */
  ghost predicate Gapless(xs: seq<nat>) {
    forall i :: 0 <= i < |xs| ==> xs[i] == i
  }

  ghost predicate Relayed(c: Option<Close>) {
    c.Some? ==> Sendable(c.value.code) && 2 + ByteLength(c.value.reason) <= 125
  }

  ghost predicate Inv(l: Limits, p: Pipe) {
    && Gapless(p.toClient) && |p.toClient| <= p.fromActor
    && (p.client == Opened ==> |p.toClient| == p.fromActor)
    && Increasing(p.toActor, p.fromClient)
    && p.clientQueue <= l.buffered + 3 * l.actorFrame
    && p.upstreamQueue <= l.buffered + l.clientFrame
    && Relayed(p.closeToClient) && Relayed(p.closeToActor)
    && (p.client == Closed || p.upstream == Closed ==> p.client != Opened && p.upstream != Opened && !p.listed)
    && (p.listed ==> p.client != Closed && p.upstream != Closed)
  }

  lemma ActorFrameKeeps(l: Limits, p: Pipe, ev: Event)
    requires Inv(l, p) && Enabled(l, p, ev) && (ev.ActorText? || ev.ActorBinary?)
    ensures Inv(l, Step(l, p, ev))
  {
    hide ByteLength, Ascii, Sendable, Decode, Increasing;
    FixedReasonsFit();
    FixedCodesAreSendable();
    if ev.ActorBinary? { DecodedIsAtMostTriple(ev.data); }
  }

  lemma ClientTextKeeps(l: Limits, p: Pipe, ev: Event)
    requires Inv(l, p) && Enabled(l, p, ev) && ev.ClientText?
    ensures Inv(l, Step(l, p, ev))
  {
    hide ByteLength, Ascii, Sendable, Decode, Gapless, Step;
    FixedReasonsFit();
    FixedCodesAreSendable();
    ClientTextGoes(l, p, ev.size);
  }

  lemma QueueKeeps(l: Limits, p: Pipe, ev: Event)
    requires Inv(l, p) && Enabled(l, p, ev) && !ev.ActorText? && !ev.ActorBinary? && !ev.ClientText? && !ev.ActorClosed? && !ev.ClientClosed?
    ensures Inv(l, Step(l, p, ev))
  {
    hide ByteLength, Ascii, Sendable, SendableCloseCode, Gapless, Increasing;
    FixedReasonsFit();
    FixedCodesAreSendable();
  }

  lemma CloseKeeps(l: Limits, p: Pipe, ev: Event)
    requires Inv(l, p) && Enabled(l, p, ev) && (ev.ActorClosed? || ev.ClientClosed?)
    ensures Inv(l, Step(l, p, ev))
  {
    hide ReasonToRelay, ByteLength, Ascii, SendableCloseCode, Sendable, Gapless, Increasing;
    SendableCloseCodeIsSendable(ev.code);
    ReasonFits(ev.reason);
  }

  lemma StepKeeps(l: Limits, p: Pipe, ev: Event)
    requires Inv(l, p)
    ensures Inv(l, Step(l, p, ev))
  {
    hide Inv;
    if Enabled(l, p, ev) {
      if ev.ActorText? || ev.ActorBinary? { ActorFrameKeeps(l, p, ev); }
      else if ev.ClientText? { ClientTextKeeps(l, p, ev); }
      else if ev.ActorClosed? || ev.ClientClosed? { CloseKeeps(l, p, ev); }
      else { QueueKeeps(l, p, ev); }
    }
  }

  lemma FixedCodesAreSendable()
    ensures Sendable(1003) && Sendable(1012) && Sendable(1013)
  {
  }

  lemma FixedReasonsFit()
    ensures ByteLength(Ascii("slow consumer")) <= 123
    ensures ByteLength(Ascii("slow upstream")) <= 123
    ensures ByteLength(Ascii("text frames only")) <= 123
    ensures ByteLength(Ascii("gateway restarting")) <= 123
  {
    hide Ascii, ByteLength;
    AsciiLength("slow consumer");
    AsciiLength("slow upstream");
    AsciiLength("text frames only");
    AsciiLength("gateway restarting");
  }

  lemma {:induction false} RunKeeps(l: Limits, events: seq<Event>)
    ensures Inv(l, Run(l, events))
  {
    if events != [] {
      RunKeeps(l, events[..|events| - 1]);
      StepKeeps(l, Run(l, events[..|events| - 1]), events[|events| - 1]);
    }
  }

  /** The size of an actor's frame as it is sent on; 0 for one the library refuses. */
  ghost function SentSize(l: Limits, ev: Event): nat {
    if ev.ActorText? && ev.size <= l.actorFrame then ev.size
    else if ev.ActorBinary? && |ev.data| <= l.actorFrame then ByteLength(Decode(ev.data))
    else 0
  }

  ghost function LargestSent(l: Limits, events: seq<Event>): nat {
    if events == [] then 0
    else
      var before, last := LargestSent(l, events[..|events| - 1]), SentSize(l, events[|events| - 1]);
      if before < last then last else before
  }

  lemma {:induction false} QueueHoldsOneMore(l: Limits, events: seq<Event>)
    ensures Run(l, events).clientQueue <= l.buffered + LargestSent(l, events)
  {
    hide Step, SentSize;
    if events != [] {
      QueueHoldsOneMore(l, events[..|events| - 1]);
      QueueStep(l, Run(l, events[..|events| - 1]), events[|events| - 1], LargestSent(l, events));
    }
  }

  lemma QueueStep(l: Limits, p: Pipe, ev: Event, largest: nat)
    requires p.clientQueue <= l.buffered + largest && SentSize(l, ev) <= largest
    ensures Step(l, p, ev).clientQueue <= l.buffered + largest
  {
    hide Ascii, ByteLength, Decode, ReasonToRelay, SendableCloseCode;
  }

  /** A frame sent on is at most three times as long as received, and no longer if it is text. */
  lemma {:induction false} LargestSentIsBounded(l: Limits, events: seq<Event>)
    ensures LargestSent(l, events) <= 3 * l.actorFrame
    ensures (forall i :: 0 <= i < |events| ==> !events[i].ActorBinary?) ==> LargestSent(l, events) <= l.actorFrame
  {
    hide ByteLength, Decode;
    if events != [] {
      LargestSentIsBounded(l, events[..|events| - 1]);
      if events[|events| - 1].ActorBinary? { DecodedIsAtMostTriple(events[|events| - 1].data); }
    }
  }

  /** Over every run: the client gets a gapless prefix of the actor's frames (all of them while
      it is open), the actor gets client text frames in the order sent, each queue stays within
      the limit plus one frame as it is sent on, a relayed close fits a control frame and carries
      a code that may be sent, and when one side has closed the other has been told. */
  lemma PipePromises(l: Limits, events: seq<Event>)
    ensures var p := Run(l, events);
            && Gapless(p.toClient) && |p.toClient| <= p.fromActor
            && (p.client == Opened ==> |p.toClient| == p.fromActor)
            && Increasing(p.toActor, p.fromClient)
            && p.clientQueue <= l.buffered + LargestSent(l, events) <= l.buffered + 3 * l.actorFrame
            && p.upstreamQueue <= l.buffered + l.clientFrame
            && Relayed(p.closeToClient) && Relayed(p.closeToActor)
            && (p.client == Closed ==> p.upstream != Opened) && (p.upstream == Closed ==> p.client != Opened)
    ensures (forall i :: 0 <= i < |events| ==> !events[i].ActorBinary?) ==>
              Run(l, events).clientQueue <= l.buffered + l.actorFrame
  {
    hide LargestSent;
    RunKeeps(l, events);
    QueueHoldsOneMore(l, events);
    LargestSentIsBounded(l, events);
  }

  lemma {:induction false} FillQueue(l: Limits, n: nat)
    requires n <= l.buffered && l.actorFrame >= 1
    ensures var p := Run(l, seq(n, _ => ActorText(1))); p.clientQueue == n && p.client == p.upstream == Opened
  {
    hide Ascii, ByteLength, Decode;
    if n > 0 {
      var events := seq(n, _ => ActorText(1));
      FillQueue(l, n - 1);
      assert events[..n - 1] == seq(n - 1, _ => ActorText(1));
    }
  }

  /** The queue does get that long: filled to the limit with text, then a largest binary frame
      of ill-formed bytes. */
  lemma BinaryFrameOutgrowsItsLimit(l: Limits) returns (events: seq<Event>)
    requires l.actorFrame >= 1
    ensures Run(l, events).clientQueue == l.buffered + 3 * l.actorFrame
  {
    hide Ascii, ByteLength, Decode;
    var fill := seq(l.buffered, _ => ActorText(1));
    var ev := ActorBinary(IllFormed(l.actorFrame));
    FillQueue(l, l.buffered);
    IllFormedTriples(l.actorFrame);
    RunSnoc(l, fill, ev);
    events := fill + [ev];
  }

  /** The limit plus the largest frame the actor may send bounds the queue in all runs exactly
      when the actor may send nothing but empty frames. */
  lemma FrameLimitBoundsQueueIff(l: Limits)
    ensures (forall events :: Run(l, events).clientQueue <= l.buffered + l.actorFrame) <==> l.actorFrame == 0
  {
    hide Run;
    if l.actorFrame == 0 {
      forall events ensures Run(l, events).clientQueue <= l.buffered + l.actorFrame { PipePromises(l, events); }
    } else {
      var events := BinaryFrameOutgrowsItsLimit(l);
    }
  }

  // ---- gaps towards the actor -----------------------------------------------------------

  /** Some text frame was dropped for a slow actor, and a later one was forwarded. */
  ghost predicate ForwardsAfterSlow(l: Limits, events: seq<Event>) {
    exists i, j :: 0 <= i < j < |events|
      && SlowUpstream(l, Run(l, events[..i]), events[i]) && Forwards(l, Run(l, events[..j]), events[j])
  }

  ghost predicate HasSlow(l: Limits, events: seq<Event>) {
    exists i :: 0 <= i < |events| && SlowUpstream(l, Run(l, events[..i]), events[i])
  }

  lemma ForwardsAfterSlowSnoc(l: Limits, init: seq<Event>, ev: Event)
    ensures HasSlow(l, init + [ev]) <==> HasSlow(l, init) || SlowUpstream(l, Run(l, init), ev)
    ensures ForwardsAfterSlow(l, init + [ev]) <==>
              ForwardsAfterSlow(l, init) || (HasSlow(l, init) && Forwards(l, Run(l, init), ev))
  {
    hide Run, SlowUpstream, Forwards;
    var events, n := init + [ev], |init|;
    assert events[..n] == init;
    assert forall i :: 0 <= i < n ==> events[..i] == init[..i] && events[i] == init[i];
    if HasSlow(l, init) {
      var i :| 0 <= i < n && SlowUpstream(l, Run(l, init[..i]), init[i]);
      assert SlowUpstream(l, Run(l, events[..i]), events[i]);
      if Forwards(l, Run(l, init), ev) { assert Forwards(l, Run(l, events[..n]), events[n]); }
    }
    if SlowUpstream(l, Run(l, init), ev) { assert SlowUpstream(l, Run(l, events[..n]), events[n]); }
    if ForwardsAfterSlow(l, init) {
      var i, j :| 0 <= i < j < n && SlowUpstream(l, Run(l, init[..i]), init[i]) && Forwards(l, Run(l, init[..j]), init[j]);
      assert SlowUpstream(l, Run(l, events[..i]), events[i]) && Forwards(l, Run(l, events[..j]), events[j]);
    }
  }

  /** What decides whether the next forwarded frame leaves a gap. */
  ghost predicate GapInv(l: Limits, events: seq<Event>) {
    var p := Run(l, events);
    && (Gapless(p.toActor) <==> !ForwardsAfterSlow(l, events))
    && (p.upstream == Opened && !HasSlow(l, events) ==> |p.toActor| == p.fromClient)
    && (HasSlow(l, events) ==> |p.toActor| < p.fromClient)
    && (ForwardsAfterSlow(l, events) ==> HasSlow(l, events))
  }

  lemma GapStep(l: Limits, init: seq<Event>, ev: Event)
    requires GapInv(l, init) && Inv(l, Run(l, init))
    ensures GapInv(l, init + [ev])
  {
    hide Ascii, ReasonToRelay, SendableCloseCode, Relayed, ByteLength, Decode;
    hide HasSlow, ForwardsAfterSlow;
    var p, q := Run(l, init), Run(l, init + [ev]);
    assert (init + [ev])[..|init|] == init;
    assert q == Step(l, p, ev);
    ForwardsAfterSlowSnoc(l, init, ev);
    if Forwards(l, p, ev) {
      assert q.toActor == p.toActor + [p.fromClient];
      assert q.toActor[|p.toActor|] == p.fromClient;
      assert forall i :: 0 <= i < |p.toActor| ==> q.toActor[i] == p.toActor[i];
    } else {
      assert q.toActor == p.toActor;
    }
  }

  lemma NoGapYet(l: Limits)
    ensures GapInv(l, [])
  {
  }

  lemma {:induction false} GapRun(l: Limits, events: seq<Event>)
    ensures GapInv(l, events)
  {
    hide GapInv, Run, Inv;
    if events == [] {
      NoGapYet(l);
    } else {
      var init := events[..|events| - 1];
      GapRun(l, init);
      RunKeeps(l, init);
      GapStep(l, init, events[|events| - 1]);
      assert init + [events[|events| - 1]] == events;
    }
  }

  /** The actor's stream has no gap exactly when no text frame was forwarded after one had been
      dropped because the actor's queue was over its limit: the bridge closes the client then,
      but goes on forwarding what the client still sends once the queue has drained. */
  lemma ActorStreamIsGaplessIff(l: Limits, events: seq<Event>)
    ensures Gapless(Run(l, events).toActor) <==> !ForwardsAfterSlow(l, events)
  {
    GapRun(l, events);
  }

  /** What the client has sent and the actor has not read. */
  ghost function Unread(l: Limits, events: seq<Event>): int {
    if events == [] then 0
    else
      var before, ev := events[..|events| - 1], events[|events| - 1];
      if !Enabled(l, Run(l, before), ev) then Unread(l, before)
      else if ev.ClientText? then Unread(l, before) + ev.size
      else if ev.ActorReads? then Unread(l, before) - ev.bytes
      else Unread(l, before)
  }

  lemma {:induction false} QueueIsUnread(l: Limits, events: seq<Event>)
    ensures Run(l, events).upstreamQueue <= Unread(l, events)
  {
    hide Ascii, ByteLength, Decode, ReasonToRelay, SendableCloseCode;
    if events != [] { QueueIsUnread(l, events[..|events| - 1]); }
  }

  /** An actor that keeps up misses nothing: as long as what was sent and not read never exceeds
      the buffer limit, its stream has no gap. */
  lemma NoGapWhileRead(l: Limits, events: seq<Event>)
    requires forall k :: 0 <= k <= |events| ==> Unread(l, events[..k]) <= l.buffered
    ensures Gapless(Run(l, events).toActor)
  {
    hide Run, Unread, Gapless;
    ActorStreamIsGaplessIff(l, events);
    forall i | 0 <= i < |events| ensures !SlowUpstream(l, Run(l, events[..i]), events[i]) {
      QueueIsUnread(l, events[..i]);
    }
  }

  /** Such a run: three frames, the second meets a full queue, the third an empty one. */
  lemma ActorStreamCanHaveAGap()
    ensures var l := Limits(0, 10, 10);
            Run(l, [ClientText(5), ClientText(5), ActorReads(5), ClientText(5)]).toActor == [0, 2]
  {
    hide Step;
    var l := Limits(0, 10, 10);
    var text, read := ClientText(5), ActorReads(5);
    RunSnoc(l, [], text);
    RunSnoc(l, [text], text);
    RunSnoc(l, [text, text], read);
    RunSnoc(l, [text, text, read], text);
    assert [] + [text] == [text] && [text] + [text] == [text, text];
    assert [text, text] + [read] == [text, text, read] && [text, text, read] + [text] == [text, text, read, text];
    GapSteps(l);
  }

  /** One frame goes through, the next finds the queue full and has the client closed, the actor
      reads, and the third goes through. */
  lemma GapSteps(l: Limits)
    requires l == Limits(0, 10, 10)
    ensures var text, read := ClientText(5), ActorReads(5);
            Step(l, Step(l, Step(l, Step(l, START, text), text), read), text).toActor == [0, 2]
  {
    hide Ascii;
    var text, read := ClientText(5), ActorReads(5);
    var one := Step(l, START, text);
    assert one.toActor == [0] && one.upstreamQueue == 5 && one.fromClient == 1 && one.client == one.upstream == Opened;
    var two := Step(l, one, text);
    assert two.toActor == [0] && two.upstreamQueue == 5 && two.fromClient == 2 && two.client == Closing && two.upstream == Opened;
    var three := Step(l, two, read);
    assert three.toActor == [0] && three.upstreamQueue == 0 && three.fromClient == 2 && three.client == Closing && three.upstream == Opened;
  }

  lemma RunSnoc(l: Limits, events: seq<Event>, ev: Event)
    ensures Run(l, []) == START
    ensures Run(l, events + [ev]) == Step(l, Run(l, events), ev)
  {
    hide Step;
    assert (events + [ev])[..|events|] == events;
  }

  // ---- what each event puts on the wire -------------------------------------------------

  /** An open client is sent this close and nothing else changes; any other client is left alone. */
  ghost function ClientClose(p: Pipe, code: int, text: string): Pipe {
    if p.client.Opened? then p.(client := Closing, closeToClient := Some(Close(code, Ascii(text)))) else p
  }

  /** A client's text frame goes to an open actor whose queue is within the limit; past it the
      client is closed as having outrun the actor; with the actor's side closing it is dropped. */
  lemma ClientTextGoes(l: Limits, p: Pipe, size: nat)
    requires !p.client.Closed? && size <= l.clientFrame
    ensures var q := p.(fromClient := p.fromClient + 1);
      Step(l, p, ClientText(size)) ==
        if !p.upstream.Opened? then q
        else if p.upstreamQueue <= l.buffered then q.(toActor := p.toActor + [p.fromClient], upstreamQueue := p.upstreamQueue + size)
        else ClientClose(q, 1013, "slow upstream")
  {
    hide Ascii;
  }

  /** An actor's frame goes to an open client whose queue is within the limit, as text; past it
      the client is closed as too slow; a client that is closing gets nothing more. */
  lemma ActorFrameGoes(l: Limits, p: Pipe, ev: Event)
    requires !p.upstream.Closed?
    requires (ev.ActorText? && ev.size <= l.actorFrame) || (ev.ActorBinary? && |ev.data| <= l.actorFrame)
    ensures var q := p.(fromActor := p.fromActor + 1);
            var size := if ev.ActorText? then ev.size else ByteLength(Decode(ev.data));
      Step(l, p, ev) ==
        if !p.client.Opened? then q
        else if p.clientQueue <= l.buffered then q.(toClient := p.toClient + [p.fromActor], clientQueue := p.clientQueue + size)
        else ClientClose(q, 1013, "slow consumer")
  {
    hide Ascii, ByteLength, Decode;
  }

  /** A binary frame from the client, a restart of the gateway, its last word, and what drains. */
  lemma OthersGo(l: Limits, p: Pipe, bytes: nat)
    ensures !p.client.Closed? ==> Step(l, p, ClientBinary) == ClientClose(p, 1003, "text frames only")
    ensures p.listed ==> Step(l, p, Restart) == ClientClose(p, 1012, "gateway restarting")
    ensures p.listed && p.client.Opened? ==> Step(l, p, Terminate) == p.(client := Closing)
    ensures bytes <= p.clientQueue ==> Step(l, p, ClientReads(bytes)).clientQueue == p.clientQueue - bytes
    ensures bytes <= p.upstreamQueue ==> Step(l, p, ActorReads(bytes)).upstreamQueue == p.upstreamQueue - bytes
    ensures !p.client.Closed? ==> Step(l, p, Pong) == p.(alive := true)
    ensures START.listed && START.alive && START.client == START.upstream == Opened
  {
    hide Ascii;
  }

  /** When one side closes it is unlisted, and an open other side is sent the same close: its code
      as it may be sent, its reason as it fits. */
  lemma CloseIsRelayed(l: Limits, p: Pipe, code: int, reason: seq<Scalar>)
    ensures var close := Close(SendableCloseCode(code), ReasonToRelay(reason));
      && (!p.upstream.Closed? ==>
            var q := p.(upstream := Closed, listed := false);
            Step(l, p, ActorClosed(code, reason)) == if p.client.Opened? then q.(client := Closing, closeToClient := Some(close)) else q)
      && (!p.client.Closed? ==>
            var q := p.(client := Closed, listed := false);
            Step(l, p, ClientClosed(code, reason)) == if p.upstream.Opened? then q.(upstream := Closing, closeToActor := Some(close)) else q)
  {
    hide SendableCloseCode, ReasonToRelay;
  }

  /** A closed socket says nothing, a frame over the limit is not let in, a client that is no
      longer listed is not pinged or restarted. */
  lemma NothingElseGoes(l: Limits, p: Pipe, ev: Event)
    requires match ev
      case ActorText(size) => p.upstream.Closed? || size > l.actorFrame
      case ActorBinary(data) => p.upstream.Closed? || |data| > l.actorFrame
      case ClientText(size) => p.client.Closed? || size > l.clientFrame
      case ClientBinary => p.client.Closed?
      case ClientReads(bytes) => bytes > p.clientQueue
      case ActorReads(bytes) => bytes > p.upstreamQueue
      case ActorClosed(_, _) => p.upstream.Closed?
      case ClientClosed(_, _) => p.client.Closed?
      case Pong => p.client.Closed?
      case _ => !p.listed
    ensures Step(l, p, ev) == p
  {
  }

  // ---- pings ----------------------------------------------------------------------------

  /** The event at `i` is a ping that went out, or a pong that came in. */
  ghost predicate Happens(l: Limits, events: seq<Event>, i: int, ev: Event) {
    0 <= i < |events| && events[i] == ev && Enabled(l, Run(l, events[..i]), ev)
  }

  /** Every ping was followed by a pong. */
  ghost predicate AllAnswered(l: Limits, events: seq<Event>) {
    forall i :: Happens(l, events, i, Ping) ==> exists j :: i < j && Happens(l, events, j, Pong)
  }

  lemma HappensSnoc(l: Limits, before: seq<Event>, e: Event, i: int, ev: Event)
    ensures Happens(l, before + [e], i, ev) <==>
              Happens(l, before, i, ev) || (i == |before| && e == ev && Enabled(l, Run(l, before), ev))
  {
    hide Run, Enabled;
    var events := before + [e];
    assert events[..|before|] == before;
    if 0 <= i < |before| { assert events[..i] == before[..i]; }
  }

  /** The client counts as alive exactly when every ping so far was answered. */
  lemma {:induction false} AliveIff(l: Limits, events: seq<Event>)
    ensures Run(l, events).alive <==> AllAnswered(l, events)
  {
    hide Happens, Enabled, Run;
    if events == [] {
      RunSnoc(l, [], Ping);
      forall i ensures !Happens(l, [], i, Ping) { NothingHappens(l, i); }
    } else {
      var before, e := events[..|events| - 1], events[|events| - 1];
      assert before + [e] == events;
      AliveIff(l, before);
      RunSnoc(l, before, e);
      AliveStep(l, Run(l, before), e);
      AnsweredSnoc(l, before, e);
    }
  }

  lemma NothingHappens(l: Limits, i: int)
    ensures !Happens(l, [], i, Ping)
  {
  }

  lemma AliveStep(l: Limits, p: Pipe, e: Event)
    ensures Step(l, p, e).alive <==> (p.alive && !(e.Ping? && Enabled(l, p, e))) || (e.Pong? && Enabled(l, p, e))
  {
    hide Ascii, ByteLength, Decode, ReasonToRelay, SendableCloseCode;
  }

  lemma AnsweredSnoc(l: Limits, before: seq<Event>, e: Event)
    ensures AllAnswered(l, before + [e]) <==>
              (AllAnswered(l, before) && !(e == Ping && Enabled(l, Run(l, before), Ping)))
              || (e == Pong && Enabled(l, Run(l, before), Pong))
  {
    hide Run, Enabled, Happens;
    var events, n := before + [e], |before|;
    forall i, ev ensures Happens(l, events, i, ev) <==> Happens(l, before, i, ev) || (i == n && e == ev && Enabled(l, Run(l, before), ev)) {
      HappensSnoc(l, before, e, i, ev);
    }
    forall i, ev | Happens(l, before, i, ev) ensures 0 <= i < n { HappensEarly(l, before, i, ev); }
    if e == Pong && Enabled(l, Run(l, before), Pong) {
      assert Happens(l, events, n, Pong);
      forall i | Happens(l, events, i, Ping) ensures exists j :: i < j && Happens(l, events, j, Pong) { assert i < n; }
    } else if e == Ping && Enabled(l, Run(l, before), Ping) {
      assert Happens(l, events, n, Ping);
      assert forall j :: n < j ==> !Happens(l, events, j, Pong);
    } else {
      assert forall i :: Happens(l, events, i, Ping) <==> Happens(l, before, i, Ping);
      assert forall i :: Happens(l, events, i, Pong) <==> Happens(l, before, i, Pong);
    }
  }

  lemma HappensEarly(l: Limits, events: seq<Event>, i: int, ev: Event)
    requires Happens(l, events, i, ev)
    ensures 0 <= i < |events|
  {
  }

  /** The ping interval drops an open client exactly when it left an earlier ping unanswered: one
      that answers every ping before the next is never dropped by it, a silent one at the second. */
  lemma PingDropsIff(l: Limits, events: seq<Event>)
    requires Run(l, events).listed && Run(l, events).client == Opened
    ensures Step(l, Run(l, events), Ping).client == (if AllAnswered(l, events) then Opened else Closing)
    ensures Step(l, Run(l, events), Ping).closeToClient == Run(l, events).closeToClient
  {
    hide AllAnswered, Run;
    AliveIff(l, events);
  }

  // ---- the pair as the source holds it --------------------------------------------------

  /** The two sockets and the closure variables of `pipe`; the fields named after the sockets'
      ready states and queues are the library's, the rest is what was put on the wire. */
  class PipedPair {
    const limits: Limits
    var client: Ready
    var upstream: Ready
    var clientQueue: nat
    var upstreamQueue: nat
    var fromActor: nat
    var toClient: seq<nat>
    var fromClient: nat
    var toActor: seq<nat>
    var closeToClient: Option<Close>
    var closeToActor: Option<Close>
    var listed: bool
    var alive: bool

    ghost function View(): Pipe
      reads this
    {
      Pipe(client, upstream, clientQueue, upstreamQueue, fromActor, toClient, fromClient, toActor,
           closeToClient, closeToActor, listed, alive)
    }

    constructor (limits: Limits)
      ensures this.limits == limits && View() == START && Inv(limits, View())
    {
      this.limits := limits;
      client, upstream, clientQueue, upstreamQueue := Opened, Opened, 0, 0;
      fromActor, toClient, fromClient, toActor := 0, [], 0, [];
      closeToClient, closeToActor, listed, alive := None, None, true, true;
    }

    method CloseClient(code: int, reason: seq<Scalar>)
      modifies this`client, this`closeToClient
      ensures View() == CloseTheClient(old(View()), Close(code, reason))
    {
      if client == Opened { client, closeToClient := Closing, Some(Close(code, reason)); }
    }

    method CloseUpstream(code: int, reason: seq<Scalar>)
      modifies this`upstream, this`closeToActor
      ensures View() == CloseTheActor(old(View()), Close(code, reason))
    {
      if upstream == Opened { upstream, closeToActor := Closing, Some(Close(code, reason)); }
    }

    method TerminateClient()
      modifies this`client
      ensures View() == Drop(old(View()))
    {
      if client == Opened { client := Closing; }
    }

    /** The client's `message` callback, for a text frame. */
    method ClientMessage(size: nat)
      modifies this
      ensures View() == OnClientText(limits, old(View()), size)
    {
      hide Ascii;
      var frame := fromClient;
      fromClient := fromClient + 1;
      if upstream != Opened { return; }
      if upstreamQueue > limits.buffered { CloseClient(1013, Ascii("slow upstream")); return; }
      toActor, upstreamQueue := toActor + [frame], upstreamQueue + size;
    }

    /** The upstream's `message` callback, for a frame of this size when sent on as text. */
    method ActorMessage(size: nat)
      modifies this
      ensures View() == OnActorFrame(limits, old(View()), size)
    {
      hide Ascii;
      var frame := fromActor;
      fromActor := fromActor + 1;
      if client != Opened { return; }
      if clientQueue > limits.buffered { CloseClient(1013, Ascii("slow consumer")); return; }
      toClient, clientQueue := toClient + [frame], clientQueue + size;
    }

    method UpstreamClosed(code: int, reason: seq<Scalar>)
      modifies this
      ensures View() == OnActorClosed(old(View()), code, reason)
    {
      hide SendableCloseCode, ReasonToRelay;
      var text := ReasonToRelay(reason);
      upstream, listed := Closed, false;
      CloseClient(SendableCloseCode(code), text);
    }

    method ClientHasClosed(code: int, reason: seq<Scalar>)
      modifies this
      ensures View() == OnClientClosed(old(View()), code, reason)
    {
      hide SendableCloseCode, ReasonToRelay;
      var text := ReasonToRelay(reason);
      client, listed := Closed, false;
      CloseUpstream(SendableCloseCode(code), text);
    }

    method PingInterval()
      modifies this`alive, this`client
      ensures View() == if old(alive) then old(View()).(alive := false) else Drop(old(View()))
    {
      if !alive { TerminateClient(); return; }
      alive := false;
    }

    /** Whichever callback comes next. */
    method Handle(ev: Event)
      requires Inv(limits, View())
      modifies this
      ensures View() == Step(limits, old(View()), ev) && Inv(limits, View())
    {
      hide Inv, Ascii, ReasonToRelay, SendableCloseCode, ByteLength, Decode;
      StepKeeps(limits, View(), ev);
      if !Enabled(limits, Pipe(client, upstream, clientQueue, upstreamQueue, fromActor, toClient, fromClient, toActor,
                               closeToClient, closeToActor, listed, alive), ev) { return; }
      match ev
      case ActorText(size) => ActorMessage(size);
      case ActorBinary(data) => ActorMessage(ByteLength(Decode(data)));
      case ClientText(size) => ClientMessage(size);
      case ClientBinary => CloseClient(1003, Ascii("text frames only"));
      case ClientReads(bytes) => clientQueue := clientQueue - bytes;
      case ActorReads(bytes) => upstreamQueue := upstreamQueue - bytes;
      case ActorClosed(code, reason) => UpstreamClosed(code, reason);
      case ClientClosed(code, reason) => ClientHasClosed(code, reason);
      case Restart => CloseClient(1012, Ascii("gateway restarting"));
      case Terminate => TerminateClient();
      case Ping => PingInterval();
      case Pong => alive := true;
    }
  }
}
