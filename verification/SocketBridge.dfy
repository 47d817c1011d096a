/** The upgrade protocol of the WebSocket bridge (packages/actors-gateway/src/ws.ts).

    A client's upgrade waits for a credential check, an actor probe, a socket grant and the
    opening of the actor's socket, while the client may leave, send bytes early, or the gateway
    may shut down.  Each callback of the bridge is one event; any sequence of events is a run
    (one that cannot occur in a state leaves it alone), so the promises hold for every
    interleaving. */
module SocketBridge {
  import opened Wrappers

  type Byte = b: int | 0 <= b < 256

  const MAX_EARLY_BYTES: nat := 16 * 1024

  // ---- state ----------------------------------------------------------------------------

  datatype Answer =
    | Bridged                     // the handshake completed and frames are piped
    | Refused(status: nat)        // a raw HTTP response
    | Closed1011(completed: bool) // the upstream failed: handshake (if possible), then close 1011
    | Dropped                     // the client left, sent too much early, or was unusable

  /** Where the asynchronous part of `handleUpgrade` is. */
  datatype Stage = Verifying | Probing | Granting | Finished

  /** One upgrade request; `answers` collects everything ever answered to it. */
  datatype Upgrade = Upgrade(
    settled: bool, stage: Stage, upstream: Option<nat>,
    head: seq<Byte>, early: seq<seq<Byte>>, earlyBytes: nat, answers: seq<Answer>)

  datatype Link = Connecting | Open | Gone

  /** A socket opened to an actor; `told` once the gateway asked it to close or terminate. */
  datatype Upstream = Upstream(entry: nat, link: Link, told: bool, client: Option<nat>)

  /** A bridged client; `gone` once its close event ran; `fed` is what its handshake was fed. */
  datatype Client = Client(upstream: nat, fed: seq<Byte>, told: bool, gone: bool)

  datatype State = State(
    upgrades: seq<Upgrade>, pending: set<nat>,
    upstreams: seq<Upstream>,
    bridged: seq<Client>, clients: set<nat>,
    closing: bool)

  const EMPTY := State([], {}, [], [], {}, false)

  datatype ProbeResult = Grant | NoGrant(status: nat) | ProbeFailed(status: nat)
  datatype GrantResult = SocketUrl | GrantFailed(status: nat)

  datatype Event =
    | Arrive(refusal: Option<nat>, head: seq<Byte>)   // `refusal`: the request itself is not acceptable
    | Verified(entry: nat, refusal: Option<nat>)      // 401 for a bad credential, 500 when the check fails
    | Probed(entry: nat, probe: ProbeResult)
    | Granted(entry: nat, grant: GrantResult)
    | ClientLeft(entry: nat)
    | ClientSent(entry: nat, chunk: seq<Byte>)
    | UpstreamOpened(upstream: nat, usable: bool)     // `usable`: the library completes the handshake
    | UpstreamFailed(upstream: nat, usable: bool)     // error or close before it opened
    | UpstreamClosed(upstream: nat)
    | ClientClosed(client: nat)
    | CloseAll
    | TerminateAll

  // ---- pieces ---------------------------------------------------------------------------

  function Flatten(chunks: seq<seq<Byte>>): seq<Byte> {
    if chunks == [] then [] else Flatten(chunks[..|chunks| - 1]) + chunks[|chunks| - 1]
  }

  /** `settle`, together with the answer its caller goes on to give. */
  function Settle(s: State, e: nat, answer: Answer): State
    requires e < |s.upgrades|
  {
    var u := s.upgrades[e];
    s.(upgrades := s.upgrades[e := u.(settled := true, answers := u.answers + [answer])], pending := s.pending - {e})
  }

  function Tell(s: State, upstream: Option<nat>): State {
    if upstream.Some? && upstream.value < |s.upstreams| then
      s.(upstreams := s.upstreams[upstream.value := s.upstreams[upstream.value].(told := true)])
    else s
  }

  function SetStage(s: State, e: nat, stage: Stage): State
    requires e < |s.upgrades|
  {
    s.(upgrades := s.upgrades[e := s.upgrades[e].(stage := stage)])
  }

  /** Settle as `answer` and drop the upstream being opened, if the upgrade is still unanswered. */
  function Cancel(s: State, e: nat, answer: Answer): State
    requires e < |s.upgrades|
  {
    if s.upgrades[e].settled then s else Tell(Settle(s, e, answer), s.upgrades[e].upstream)
  }

  /** Settle as `answer` if the upgrade is still unanswered; the asynchronous part ends. */
  function Refuse(s: State, e: nat, status: nat): State
    requires e < |s.upgrades|
  {
    var s1 := if s.upgrades[e].settled then s else Settle(s, e, Refused(status));
    SetStage(s1, e, Finished)
  }

  // ---- the callbacks --------------------------------------------------------------------

  function OnArrive(s: State, refusal: Option<nat>, head: seq<Byte>): State {
    var refused := if s.closing then Some(503)
                   else if refusal.Some? then refusal
                   else if |head| > MAX_EARLY_BYTES then Some(400)
                   else None;
    match refused
    case Some(status) =>
      s.(upgrades := s.upgrades + [Upgrade(true, Finished, None, head, [], |head|, [Refused(status)])])
    case None =>
      s.(upgrades := s.upgrades + [Upgrade(false, Verifying, None, head, [], |head|, [])],
         pending := s.pending + {|s.upgrades|})
  }

  function OnVerified(s: State, e: nat, refusal: Option<nat>): State
    requires e < |s.upgrades|
  {
    if refusal.Some? then Refuse(s, e, refusal.value)
    else SetStage(s, e, if s.upgrades[e].settled then Finished else Probing)
  }

  function OnProbed(s: State, e: nat, probe: ProbeResult): State
    requires e < |s.upgrades|
  {
    match probe
    case Grant => SetStage(s, e, if s.upgrades[e].settled then Finished else Granting)
    case NoGrant(status) => Refuse(s, e, if status == 200 then 502 else status)
    case ProbeFailed(status) => Refuse(s, e, status)
  }

  function OnGranted(s: State, e: nat, grant: GrantResult): State
    requires e < |s.upgrades|
  {
    match grant
    case GrantFailed(status) => Refuse(s, e, status)
    case SocketUrl =>
      if s.upgrades[e].settled then SetStage(s, e, Finished)
      else
        var u := s.upgrades[e].(stage := Finished, upstream := Some(|s.upstreams|));
        s.(upgrades := s.upgrades[e := u], upstreams := s.upstreams + [Upstream(e, Connecting, false, None)])
  }

  function OnClientSent(s: State, e: nat, chunk: seq<Byte>): State
    requires e < |s.upgrades|
  {
    if s.upgrades[e].settled then s
    else
      var u := s.upgrades[e].(earlyBytes := s.upgrades[e].earlyBytes + |chunk|);
      var s1 := s.(upgrades := s.upgrades[e := u]);
      if u.earlyBytes > MAX_EARLY_BYTES then Cancel(s1, e, Dropped)
      else s.(upgrades := s.upgrades[e := u.(early := u.early + [chunk])])
  }

  function OnOpened(s: State, u: nat, usable: bool): State
    requires u < |s.upstreams| && s.upstreams[u].entry < |s.upgrades|
  {
    var e := s.upstreams[u].entry;
    var s1 := s.(upstreams := s.upstreams[u := s.upstreams[u].(link := Open)]);
    if s.upgrades[e].settled then Tell(s1, Some(u))
    else if !usable then Tell(Settle(s1, e, Dropped), Some(u))
    else
      var fed := s.upgrades[e].head + Flatten(s.upgrades[e].early);
      var c := |s.bridged|;
      var s2 := Settle(s1, e, Bridged);
      s2.(upstreams := s2.upstreams[u := s2.upstreams[u].(client := Some(c))],
          bridged := s2.bridged + [Client(u, fed, false, false)],
          clients := s2.clients + {c})
  }

  function OnFailed(s: State, u: nat, usable: bool): State
    requires u < |s.upstreams| && s.upstreams[u].entry < |s.upgrades|
  {
    var e := s.upstreams[u].entry;
    var s1 := s.(upstreams := s.upstreams[u := s.upstreams[u].(link := Gone)]);
    if s.upgrades[e].settled then s1 else Settle(s1, e, Closed1011(usable))
  }

  /** The piped pair: the actor's side closed. */
  function OnUpstreamClosed(s: State, u: nat): State
    requires u < |s.upstreams|
  {
    var s1 := s.(upstreams := s.upstreams[u := s.upstreams[u].(link := Gone)]);
    match s.upstreams[u].client
    case None => s1
    case Some(c) =>
      if c < |s.bridged| then
        s1.(clients := s.clients - {c}, bridged := s.bridged[c := s.bridged[c].(told := true)])
      else s1
  }

  /** The piped pair: the client's side closed. */
  function OnClientClosed(s: State, c: nat): State
    requires c < |s.bridged|
  {
    Tell(s.(clients := s.clients - {c}, bridged := s.bridged[c := s.bridged[c].(gone := true)]), Some(s.bridged[c].upstream))
  }

  function Shutdown(u: Upgrade): Upgrade {
    if u.settled then u else u.(settled := true, answers := u.answers + [Refused(503)])
  }

  function OnCloseAll(s: State): State {
    State(
      seq(|s.upgrades|, i requires 0 <= i < |s.upgrades| => Shutdown(s.upgrades[i])),
      {},
      seq(|s.upstreams|, u requires 0 <= u < |s.upstreams| =>
        if Owned(s, u) then s.upstreams[u].(told := true) else s.upstreams[u]),
      seq(|s.bridged|, c requires 0 <= c < |s.bridged| =>
        if c in s.clients then s.bridged[c].(told := true) else s.bridged[c]),
      s.clients,
      true)
  }

  function OnTerminateAll(s: State): State {
    s.(bridged := seq(|s.bridged|, c requires 0 <= c < |s.bridged| =>
         if c in s.clients then s.bridged[c].(told := true) else s.bridged[c]),
       clients := {})
  }

  /** An unsettled upgrade still holds this upstream. */
  predicate Owned(s: State, u: nat)
    requires u < |s.upstreams|
  {
    var e := s.upstreams[u].entry;
    e < |s.upgrades| && !s.upgrades[e].settled && s.upgrades[e].upstream == Some(u)
  }

  /** Whether an event can occur: the callback it stands for is registered and its source alive. */
  predicate Enabled(s: State, ev: Event) {
    match ev
    case Arrive(_, _) => true
    case Verified(e, _) => e < |s.upgrades| && s.upgrades[e].stage == Verifying
    case Probed(e, _) => e < |s.upgrades| && s.upgrades[e].stage == Probing
    case Granted(e, _) => e < |s.upgrades| && s.upgrades[e].stage == Granting
    case ClientLeft(e) => e < |s.upgrades|
    case ClientSent(e, _) => e < |s.upgrades|
    case UpstreamOpened(u, _) => u < |s.upstreams| && s.upstreams[u].link == Connecting && s.upstreams[u].entry < |s.upgrades|
    case UpstreamFailed(u, _) => u < |s.upstreams| && s.upstreams[u].link == Connecting && s.upstreams[u].entry < |s.upgrades|
    case UpstreamClosed(u) => u < |s.upstreams| && s.upstreams[u].link == Open
    case ClientClosed(c) => c < |s.bridged| && !s.bridged[c].gone
    case CloseAll => true
    case TerminateAll => true
  }

  function Step(s: State, ev: Event): State {
    if !Enabled(s, ev) then s
    else match ev
      case Arrive(refusal, head) => OnArrive(s, refusal, head)
      case Verified(e, refusal) => OnVerified(s, e, refusal)
      case Probed(e, probe) => OnProbed(s, e, probe)
      case Granted(e, grant) => OnGranted(s, e, grant)
      case ClientLeft(e) => Cancel(s, e, Dropped)
      case ClientSent(e, chunk) => OnClientSent(s, e, chunk)
      case UpstreamOpened(u, usable) => OnOpened(s, u, usable)
      case UpstreamFailed(u, usable) => OnFailed(s, u, usable)
      case UpstreamClosed(u) => OnUpstreamClosed(s, u)
      case ClientClosed(c) => OnClientClosed(s, c)
      case CloseAll => OnCloseAll(s)
      case TerminateAll => OnTerminateAll(s)
  }

  function Run(s: State, events: seq<Event>): State
    decreases |events|
  {
    if events == [] then s else Step(Run(s, events[..|events| - 1]), events[|events| - 1])
  }

  // ---- the invariant --------------------------------------------------------------------

  /** An upgrade is pending exactly while it is unsettled, and settled exactly by one answer. */
  ghost predicate UpgradesOk(s: State) {
    && (forall i :: i in s.pending <==> 0 <= i < |s.upgrades| && !s.upgrades[i].settled)
    && (forall i :: 0 <= i < |s.upgrades| ==> UpgradeOk(s, i))
    && (s.closing ==> s.pending == {})
  }

  ghost predicate UpgradeOk(s: State, i: nat)
    requires i < |s.upgrades|
  {
    var u := s.upgrades[i];
    && |u.answers| == (if u.settled then 1 else 0)
    && (u.stage != Finished ==> u.upstream.None?)
    && (u.upstream.Some? ==> u.upstream.value < |s.upstreams| && s.upstreams[u.upstream.value].entry == i)
    && (!u.settled ==> u.earlyBytes == |u.head| + |Flatten(u.early)| <= MAX_EARLY_BYTES)
    && (!u.settled ==> u.stage != Finished || Opening(s, i))
  }

  /** The upgrade's upstream is on its way, and nobody told it to close. */
  ghost predicate Opening(s: State, i: nat)
    requires i < |s.upgrades|
  {
    var u := s.upgrades[i].upstream;
    u.Some? && u.value < |s.upstreams| && s.upstreams[u.value].link == Connecting && !s.upstreams[u.value].told
  }

  /** Nobody is left holding an upstream that nothing will ever close. */
  ghost predicate UpstreamOk(s: State, u: nat)
    requires u < |s.upstreams|
  {
    var up := s.upstreams[u];
    && up.entry < |s.upgrades| && s.upgrades[up.entry].upstream == Some(u)
    && (up.link == Connecting && !up.told ==> !s.upgrades[up.entry].settled)
    && (up.link == Open ==> s.upgrades[up.entry].settled)
    && (up.link == Open && !up.told ==> Piped(s, u))
    && (up.client.Some? ==> up.client.value < |s.bridged| && s.bridged[up.client.value].upstream == u
                            && s.upgrades[up.entry].answers == [Bridged])
    && (up.link == Connecting ==> up.client.None?)
    && (s.upgrades[up.entry].answers == [Bridged] ==> up.client.Some?)
    && (up.told && up.client.Some? ==> s.bridged[up.client.value].gone)
  }

  ghost predicate Piped(s: State, u: nat)
    requires u < |s.upstreams|
  {
    var c := s.upstreams[u].client;
    c.Some? && c.value < |s.bridged| && s.bridged[c.value].upstream == u && !s.bridged[c.value].gone
  }

  ghost predicate ClientsOk(s: State) {
    && (forall c :: c in s.clients ==> 0 <= c < |s.bridged| && !s.bridged[c].gone)
    && (forall c :: 0 <= c < |s.bridged| ==> s.bridged[c].upstream < |s.upstreams| && s.upstreams[s.bridged[c].upstream].client == Some(c))
    && (forall c :: 0 <= c < |s.bridged| ==> |s.bridged[c].fed| <= MAX_EARLY_BYTES)
  }

  ghost predicate Inv(s: State) {
    && UpgradesOk(s)
    && (forall u :: 0 <= u < |s.upstreams| ==> UpstreamOk(s, u))
    && ClientsOk(s)
  }

  // ---- every event keeps the invariant --------------------------------------------------

  lemma SettleKeeps(s: State, e: nat, answer: Answer)
    requires UpgradesOk(s) && e < |s.upgrades| && !s.upgrades[e].settled
    ensures UpgradesOk(Settle(s, e, answer))
  {
    var t := Settle(s, e, answer);
    forall i | 0 <= i < |t.upgrades| ensures UpgradeOk(t, i) { assert UpgradeOk(s, i); }
  }

  /** A first answer of another kind is not the bridging. */
  lemma NotBridged(u: Upgrade, answer: Answer)
    ensures u.answers == [] && answer != Bridged ==> u.answers + [answer] != [Bridged]
  {
    assert u.answers == [] ==> (u.answers + [answer])[0] == answer;
  }

  lemma CancelKeeps(s: State, e: nat, answer: Answer)
    requires Inv(s) && e < |s.upgrades| && answer != Bridged
    ensures Inv(Cancel(s, e, answer))
  {
    hide Flatten;
    NotBridged(s.upgrades[e], answer);
    assert UpgradeOk(s, e);
    if !s.upgrades[e].settled {
      SettleKeeps(s, e, answer);
      var t := Cancel(s, e, answer);
      forall i | 0 <= i < |t.upgrades| ensures UpgradeOk(t, i) { assert UpgradeOk(s, i); }
      forall u | 0 <= u < |t.upstreams| ensures UpstreamOk(t, u) {
        assert UpstreamOk(s, u);
      }
    }
  }

  lemma SetStageKeeps(s: State, e: nat, stage: Stage)
    requires Inv(s) && e < |s.upgrades| && s.upgrades[e].upstream.None? && (s.upgrades[e].settled || stage != Finished)
    ensures Inv(SetStage(s, e, stage))
  {
    var t := SetStage(s, e, stage);
    forall i | 0 <= i < |t.upgrades| ensures UpgradeOk(t, i) { assert UpgradeOk(s, i); }
    forall u | 0 <= u < |t.upstreams| ensures UpstreamOk(t, u) { assert UpstreamOk(s, u); }
  }

  lemma CancelSettles(s: State, e: nat, answer: Answer)
    requires e < |s.upgrades|
    ensures var t := Cancel(s, e, answer); |t.upgrades| == |s.upgrades| && t.upgrades[e].settled && t.upgrades[e].upstream == s.upgrades[e].upstream
  {
  }

  lemma RefuseKeeps(s: State, e: nat, status: nat)
    requires Inv(s) && e < |s.upgrades| && s.upgrades[e].upstream.None?
    ensures Inv(Refuse(s, e, status))
  {
    hide Inv;
    CancelKeeps(s, e, Refused(status));
    CancelSettles(s, e, Refused(status));
    SetStageKeeps(Cancel(s, e, Refused(status)), e, Finished);
  }

  lemma ArriveKeeps(s: State, refusal: Option<nat>, head: seq<Byte>)
    requires Inv(s)
    ensures Inv(OnArrive(s, refusal, head))
  {
    var t := OnArrive(s, refusal, head);
    forall i | 0 <= i < |t.upgrades| ensures UpgradeOk(t, i) {
      if i < |s.upgrades| { assert UpgradeOk(s, i); }
    }
    forall u | 0 <= u < |t.upstreams| ensures UpstreamOk(t, u) {
      assert UpstreamOk(s, u);
    }
  }

  lemma GrantedKeeps(s: State, e: nat, grant: GrantResult)
    requires Inv(s) && Enabled(s, Granted(e, grant))
    ensures Inv(OnGranted(s, e, grant))
  {
    assert UpgradeOk(s, e);
    if grant.GrantFailed? {
      RefuseKeeps(s, e, grant.status);
    } else if s.upgrades[e].settled {
      SetStageKeeps(s, e, Finished);
    } else {
      var t := OnGranted(s, e, grant);
      forall i | 0 <= i < |t.upgrades| ensures UpgradeOk(t, i) {
        assert UpgradeOk(s, i);
      }
      forall u | 0 <= u < |t.upstreams| ensures UpstreamOk(t, u) {
        if u < |s.upstreams| { assert UpstreamOk(s, u); }
      }
    }
  }

  lemma ClientSentKeeps(s: State, e: nat, chunk: seq<Byte>)
    requires Inv(s) && e < |s.upgrades|
    ensures Inv(OnClientSent(s, e, chunk))
  {
    hide Inv;
    if !s.upgrades[e].settled {
      if s.upgrades[e].earlyBytes + |chunk| > MAX_EARLY_BYTES { OverflowKeeps(s, e, chunk); } else { BufferKeeps(s, e, chunk); }
    }
  }

  lemma OverflowKeeps(s: State, e: nat, chunk: seq<Byte>)
    requires Inv(s) && e < |s.upgrades| && !s.upgrades[e].settled && s.upgrades[e].earlyBytes + |chunk| > MAX_EARLY_BYTES
    ensures Inv(OnClientSent(s, e, chunk))
  {
    hide Flatten;
    CancelKeeps(s, e, Dropped);
    var t, r := Cancel(s, e, Dropped), OnClientSent(s, e, chunk);
    assert r.upgrades == t.upgrades[e := t.upgrades[e].(earlyBytes := s.upgrades[e].earlyBytes + |chunk|)];
    assert r == t.(upgrades := r.upgrades);
    forall i | 0 <= i < |r.upgrades| ensures UpgradeOk(r, i) { assert UpgradeOk(t, i); }
    forall i | 0 <= i < |r.upstreams| ensures UpstreamOk(r, i) { assert UpstreamOk(t, i); }
  }

  lemma BufferKeeps(s: State, e: nat, chunk: seq<Byte>)
    requires Inv(s) && e < |s.upgrades| && !s.upgrades[e].settled && s.upgrades[e].earlyBytes + |chunk| <= MAX_EARLY_BYTES
    ensures Inv(OnClientSent(s, e, chunk))
  {
    assert UpgradeOk(s, e);
    var u, r := s.upgrades[e], OnClientSent(s, e, chunk);
    assert (u.early + [chunk])[..|u.early|] == u.early;
    forall i | 0 <= i < |r.upgrades| ensures UpgradeOk(r, i) { assert UpgradeOk(s, i); }
    forall i | 0 <= i < |r.upstreams| ensures UpstreamOk(r, i) { assert UpstreamOk(s, i); }
  }

  lemma OpenedKeeps(s: State, u: nat, usable: bool)
    requires Inv(s) && Enabled(s, UpstreamOpened(u, usable))
    ensures Inv(OnOpened(s, u, usable))
  {
    hide Flatten;
    var t, e := OnOpened(s, u, usable), s.upstreams[u].entry;
    assert UpstreamOk(s, u) && UpgradeOk(s, e);
    NotBridged(s.upgrades[e], Dropped);
    OpenedKeepsUpgrades(s, u, usable);
    forall i | 0 <= i < |t.upstreams| ensures UpstreamOk(t, i) {
      assert UpstreamOk(s, i);
      if i != u { assert t.upstreams[i] == s.upstreams[i]; }
    }
  }

  lemma OpenedKeepsUpgrades(s: State, u: nat, usable: bool)
    requires Inv(s) && Enabled(s, UpstreamOpened(u, usable))
    ensures UpgradesOk(OnOpened(s, u, usable)) && ClientsOk(OnOpened(s, u, usable))
  {
    hide Flatten;
    var t, e := OnOpened(s, u, usable), s.upstreams[u].entry;
    assert UpstreamOk(s, u) && UpgradeOk(s, e);
    forall i | 0 <= i < |t.upgrades| ensures UpgradeOk(t, i) {
      assert UpgradeOk(s, i);
      if i != e { assert t.upgrades[i] == s.upgrades[i]; }
    }
  }

  lemma FailedKeeps(s: State, u: nat, usable: bool)
    requires Inv(s) && Enabled(s, UpstreamFailed(u, usable))
    ensures Inv(OnFailed(s, u, usable))
  {
    hide Flatten;
    var t, e := OnFailed(s, u, usable), s.upstreams[u].entry;
    assert UpstreamOk(s, u) && UpgradeOk(s, e);
    NotBridged(s.upgrades[e], Closed1011(usable));
    forall i | 0 <= i < |t.upgrades| ensures UpgradeOk(t, i) { assert UpgradeOk(s, i); }
    forall i | 0 <= i < |t.upstreams| ensures UpstreamOk(t, i) { assert UpstreamOk(s, i); }
  }

  lemma UpstreamClosedKeeps(s: State, u: nat)
    requires Inv(s) && Enabled(s, UpstreamClosed(u))
    ensures Inv(OnUpstreamClosed(s, u))
  {
    hide Flatten;
    var t := OnUpstreamClosed(s, u);
    assert UpstreamOk(s, u);
    assert t.upgrades == s.upgrades && |t.bridged| == |s.bridged|;
    forall i | 0 <= i < |t.upgrades| ensures UpgradeOk(t, i) { assert UpgradeOk(s, i); }
    forall i | 0 <= i < |t.upstreams| ensures UpstreamOk(t, i) { assert UpstreamOk(s, i); }
  }

  lemma ClientClosedKeeps(s: State, c: nat)
    requires Inv(s) && Enabled(s, ClientClosed(c))
    ensures Inv(OnClientClosed(s, c))
  {
    hide Flatten;
    var t := OnClientClosed(s, c);
    assert UpstreamOk(s, s.bridged[c].upstream);
    forall i | 0 <= i < |t.upgrades| ensures UpgradeOk(t, i) { assert UpgradeOk(s, i); }
    forall i | 0 <= i < |t.upstreams| ensures UpstreamOk(t, i) { assert UpstreamOk(s, i); }
  }

  lemma ShutdownKeeps(s: State, ev: Event)
    requires Inv(s) && (ev.CloseAll? || ev.TerminateAll?)
    ensures Inv(Step(s, ev))
  {
    var t := Step(s, ev);
    forall i | 0 <= i < |t.upgrades| ensures UpgradeOk(t, i) { assert UpgradeOk(s, i); }
    forall i | 0 <= i < |t.upstreams| ensures UpstreamOk(t, i) {
      assert UpstreamOk(s, i) && UpgradeOk(s, s.upstreams[i].entry);
      NotBridged(s.upgrades[s.upstreams[i].entry], Refused(503));
    }
  }

  /** Every callback, in every state that satisfies the invariant, keeps it. */
  lemma StepKeeps(s: State, ev: Event)
    requires Inv(s)
    ensures Inv(Step(s, ev))
  {
    if Enabled(s, ev) {
      match ev
      case Arrive(refusal, head) => ArriveKeeps(s, refusal, head);
      case Verified(e, refusal) =>
        assert UpgradeOk(s, e);
        if refusal.Some? { RefuseKeeps(s, e, refusal.value); }
        else { SetStageKeeps(s, e, if s.upgrades[e].settled then Finished else Probing); }
      case Probed(e, probe) =>
        assert UpgradeOk(s, e);
        match probe {
          case Grant => SetStageKeeps(s, e, if s.upgrades[e].settled then Finished else Granting);
          case NoGrant(status) => RefuseKeeps(s, e, if status == 200 then 502 else status);
          case ProbeFailed(status) => RefuseKeeps(s, e, status);
        }
      case Granted(e, grant) => GrantedKeeps(s, e, grant);
      case ClientLeft(e) => CancelKeeps(s, e, Dropped);
      case ClientSent(e, chunk) => ClientSentKeeps(s, e, chunk);
      case UpstreamOpened(u, usable) => OpenedKeeps(s, u, usable);
      case UpstreamFailed(u, usable) => FailedKeeps(s, u, usable);
      case UpstreamClosed(u) => UpstreamClosedKeeps(s, u);
      case ClientClosed(c) => ClientClosedKeeps(s, c);
      case CloseAll => ShutdownKeeps(s, ev);
      case TerminateAll => ShutdownKeeps(s, ev);
    }
  }

  lemma {:induction false} RunKeeps(s: State, events: seq<Event>)
    requires Inv(s)
    ensures Inv(Run(s, events))
    decreases |events|
  {
    if events != [] {
      RunKeeps(s, events[..|events| - 1]);
      StepKeeps(Run(s, events[..|events| - 1]), events[|events| - 1]);
    }
  }

  // ---- what no event ever undoes --------------------------------------------------------

  /** The upgrade a bridged client came from. */
  function EntryOf(s: State, c: nat): (e: nat)
    requires Inv(s) && c < |s.bridged|
    ensures e < |s.upgrades| && s.upgrades[e].answers == [Bridged]
  {
    assert UpstreamOk(s, s.bridged[c].upstream);
    s.upstreams[s.bridged[c].upstream].entry
  }

  /** An upgrade never loses an answer, its head, or its settledness; and while it stays
      unsettled, its early bytes grow by exactly the chunks the client sends. */
  ghost predicate UpgradeFrame(s: State, ev: Event, t: State, i: nat)
    requires i < |s.upgrades| && i < |t.upgrades|
  {
    var u, v := s.upgrades[i], t.upgrades[i];
    && v.head == u.head
    && (u.settled ==> v.settled && v.answers == u.answers)
    && (!v.settled ==> v.early == u.early + Delivered(s, ev, i))
  }

  /** The chunk an event hands to upgrade `i`, while its data listener is attached. */
  function Delivered(s: State, ev: Event, i: nat): seq<seq<Byte>> {
    if ev.ClientSent? && ev.entry == i && i < |s.upgrades| && !s.upgrades[i].settled then [ev.chunk] else []
  }

  ghost predicate Frame(s: State, ev: Event, t: State) {
    && |s.upgrades| <= |t.upgrades| && |s.upstreams| <= |t.upstreams| && |s.bridged| <= |t.bridged|
    && (forall i :: 0 <= i < |s.upgrades| ==> UpgradeFrame(s, ev, t, i))
    && (forall i :: |s.upgrades| <= i < |t.upgrades| ==> t.upgrades[i].early == [])
    && (forall u :: 0 <= u < |s.upstreams| ==> t.upstreams[u].entry == s.upstreams[u].entry)
    && (forall c :: 0 <= c < |s.bridged| ==>
          t.bridged[c].upstream == s.bridged[c].upstream && t.bridged[c].fed == s.bridged[c].fed)
    && (s.closing ==> t.closing && |t.bridged| == |s.bridged| && t.clients <= s.clients)
  }

  lemma StageFrames(s: State, ev: Event)
    requires Inv(s) && Enabled(s, ev) && (ev.Verified? || ev.Probed?)
    ensures Frame(s, ev, Step(s, ev))
  {
    var t := Step(s, ev);
    forall i | 0 <= i < |s.upgrades| ensures UpgradeFrame(s, ev, t, i) {
      if i != ev.entry { assert t.upgrades[i] == s.upgrades[i]; }
    }
  }

  lemma SocketFrames(s: State, ev: Event)
    requires Inv(s) && Enabled(s, ev) && (ev.ClientLeft? || ev.Arrive?)
    ensures Frame(s, ev, Step(s, ev))
  {
  }

  lemma DataFrames(s: State, ev: Event)
    requires Inv(s) && Enabled(s, ev) && (ev.ClientSent? || ev.Granted?)
    ensures Frame(s, ev, Step(s, ev))
  {
    assert UpgradeOk(s, ev.entry);
  }

  lemma UpstreamFrames(s: State, ev: Event)
    requires Inv(s) && Enabled(s, ev) && (ev.UpstreamOpened? || ev.UpstreamFailed?)
    ensures Frame(s, ev, Step(s, ev))
  {
    assert UpstreamOk(s, ev.upstream);
    assert s.closing ==> s.upstreams[ev.upstream].entry !in s.pending;
  }

  lemma StepFrames(s: State, ev: Event)
    requires Inv(s)
    ensures Frame(s, ev, Step(s, ev))
  {
    if Enabled(s, ev) {
      if ev.Verified? || ev.Probed? { StageFrames(s, ev); }
      else if ev.ClientLeft? || ev.Arrive? { SocketFrames(s, ev); }
      else if ev.ClientSent? || ev.Granted? { DataFrames(s, ev); }
      else if ev.UpstreamOpened? || ev.UpstreamFailed? { UpstreamFrames(s, ev); }
    }
  }

  /** A client that appears is fed the head and the early chunks of an upgrade unsettled so far. */
  lemma NewClientIsFed(s: State, ev: Event, c: nat)
    requires Inv(s) && Inv(Step(s, ev)) && |s.bridged| <= c < |Step(s, ev).bridged|
    ensures var e := EntryOf(Step(s, ev), c);
            && e < |s.upgrades| && !s.upgrades[e].settled
            && Step(s, ev).bridged[c].fed == s.upgrades[e].head + Flatten(s.upgrades[e].early)
            && ev.UpstreamOpened?
  {
  }

  lemma {:induction false} RunSplits(s: State, first: seq<Event>, rest: seq<Event>)
    ensures Run(s, first + rest) == Run(Run(s, first), rest)
    decreases |rest|
  {
    if rest == [] {
      assert first + rest == first;
    } else {
      var n := |rest| - 1;
      RunSplits(s, first, rest[..n]);
      assert (first + rest)[..|first + rest| - 1] == first + rest[..n];
    }
  }

  lemma RunOne(s: State, ev: Event)
    ensures Run(s, [ev]) == Step(s, ev)
  {
    hide Step;
    assert [ev][..0] == [];
  }

  // ---- the promises, for every run ------------------------------------------------------

  /** No interleaving orphans an upstream socket: it closed by itself, or was told to close, or
      an unanswered upgrade holds it, or it is piped to a client that has not closed yet. */
  lemma NoOrphanedUpstream(events: seq<Event>, u: nat)
    requires u < |Run(EMPTY, events).upstreams|
    ensures var s := Run(EMPTY, events);
            s.upstreams[u].link == Gone || s.upstreams[u].told || Owned(s, u) || Piped(s, u)
  {
    RunKeeps(EMPTY, events);
    assert UpstreamOk(Run(EMPTY, events), u);
  }

  /** An upgrade is pending exactly while it has no answer, and has at most one answer ever. */
  lemma AnsweredAtMostOnce(events: seq<Event>, i: nat)
    requires i < |Run(EMPTY, events).upgrades|
    ensures var s := Run(EMPTY, events);
            |s.upgrades[i].answers| <= 1 && (i in s.pending <==> s.upgrades[i].answers == [])
  {
    RunKeeps(EMPTY, events);
    assert UpgradeOk(Run(EMPTY, events), i);
  }

  /** An answer given is never taken back or followed by another, whatever happens next. */
  lemma {:induction false} AnswerIsFinal(events: seq<Event>, more: seq<Event>, i: nat)
    requires i < |Run(EMPTY, events).upgrades| && Run(EMPTY, events).upgrades[i].answers != []
    ensures var t := Run(EMPTY, events + more);
            i < |t.upgrades| && t.upgrades[i].answers == Run(EMPTY, events).upgrades[i].answers
    decreases |more|
  {
    hide Step;
    RunKeeps(EMPTY, events);
    assert UpgradeOk(Run(EMPTY, events), i);
    if more == [] {
      assert events + more == events;
    } else {
      var n := |more| - 1;
      AnswerIsFinal(events, more[..n], i);
      assert (events + more)[..|events + more| - 1] == events + more[..n];
      RunKeeps(EMPTY, events + more[..n]);
      assert UpgradeOk(Run(EMPTY, events + more[..n]), i);
      StepFrames(Run(EMPTY, events + more[..n]), more[n]);
      assert UpgradeFrame(Run(EMPTY, events + more[..n]), more[n], Run(EMPTY, events + more), i);
    }
  }

  /** Everything the client of upgrade `e` sent before its answer, in order. */
  function Chunks(events: seq<Event>, e: nat): seq<seq<Byte>>
    decreases |events|
  {
    if events == [] then []
    else Chunks(events[..|events| - 1], e) + Delivered(Run(EMPTY, events[..|events| - 1]), events[|events| - 1], e)
  }

  lemma {:induction false} NoChunksBeforeArrival(events: seq<Event>, e: nat)
    requires e >= |Run(EMPTY, events).upgrades|
    ensures Chunks(events, e) == []
    decreases |events|
  {
    hide Step;
    if events != [] {
      var init := events[..|events| - 1];
      RunKeeps(EMPTY, init);
      StepFrames(Run(EMPTY, init), events[|events| - 1]);
      NoChunksBeforeArrival(init, e);
    }
  }

  lemma {:induction false} EarlyIsWhatWasSent(events: seq<Event>, e: nat)
    requires e < |Run(EMPTY, events).upgrades| && !Run(EMPTY, events).upgrades[e].settled
    ensures Run(EMPTY, events).upgrades[e].early == Chunks(events, e)
    decreases |events|
  {
    hide Step;
    var init, last := events[..|events| - 1], events[|events| - 1];
    RunKeeps(EMPTY, init);
    StepFrames(Run(EMPTY, init), last);
    if e < |Run(EMPTY, init).upgrades| {
      assert UpgradeFrame(Run(EMPTY, init), last, Run(EMPTY, events), e);
      EarlyIsWhatWasSent(init, e);
    } else {
      NoChunksBeforeArrival(init, e);
    }
  }

  /** A bridged client's handshake is fed the bytes that came with its request followed by every
      chunk sent before the answer, in order, and never more than 16 KiB. */
  lemma {:induction false} HandshakeIsFedInOrder(events: seq<Event>, c: nat)
    requires c < |Run(EMPTY, events).bridged|
    ensures Inv(Run(EMPTY, events))
    ensures var s := Run(EMPTY, events);
            var e := EntryOf(s, c);
            && s.upgrades[e].answers == [Bridged]
            && s.bridged[c].fed == s.upgrades[e].head + Flatten(Chunks(events, e))
            && |s.bridged[c].fed| <= MAX_EARLY_BYTES
    decreases |events|
  {
    hide Step;
    RunKeeps(EMPTY, events);
    var init, last := events[..|events| - 1], events[|events| - 1];
    var s, t := Run(EMPTY, init), Run(EMPTY, events);
    RunKeeps(EMPTY, init);
    StepFrames(s, last);
    var e := EntryOf(t, c);
    if c < |s.bridged| {
      HandshakeIsFedInOrder(init, c);
      assert EntryOf(s, c) == e && UpgradeOk(s, e);
      assert UpgradeFrame(s, last, t, e) && Delivered(s, last, e) == [];
      assert Chunks(events, e) == Chunks(init, e) + [] == Chunks(init, e);
    } else {
      NewClientIsFed(s, last, c);
      EarlyIsWhatWasSent(init, e);
      assert UpgradeFrame(s, last, t, e);
      assert Chunks(events, e) == Chunks(init, e) + [] == Chunks(init, e);
    }
  }

  lemma {:induction false} ClosingShrinks(s: State, events: seq<Event>)
    requires Inv(s) && s.closing
    ensures var t := Run(s, events);
            t.closing && t.pending == {} && |t.bridged| == |s.bridged| && t.clients <= s.clients
    decreases |events|
  {
    hide Step;
    if events != [] {
      ClosingShrinks(s, events[..|events| - 1]);
      RunKeeps(s, events[..|events| - 1]);
      StepFrames(Run(s, events[..|events| - 1]), events[|events| - 1]);
      RunKeeps(s, events);
    }
  }

  lemma ShutdownEffects(s: State)
    ensures var t := Step(s, CloseAll); t.closing && t.clients == s.clients && |t.bridged| == |s.bridged|
    ensures var t := Step(s, TerminateAll); t.closing == s.closing && t.clients == {}
  {
  }

  /** From `closeAll` on, whatever comes: nothing is pending, no upgrade becomes a client, and
      the open clients only diminish. */
  lemma NothingIsBridgedAfterCloseAll(events: seq<Event>, more: seq<Event>)
    ensures var s, t := Run(EMPTY, events), Run(EMPTY, events + [CloseAll] + more);
            t.closing && t.pending == {} && |t.bridged| == |s.bridged| && t.clients <= s.clients
  {
    hide Step;
    var s := Run(EMPTY, events);
    RunKeeps(EMPTY, events);
    assert (events + [CloseAll])[..|events|] == events;
    StepKeeps(s, CloseAll);
    ShutdownEffects(s);
    RunSplits(EMPTY, events + [CloseAll], more);
    ClosingShrinks(Step(s, CloseAll), more);
  }

  /** After `closeAll` and, any time later, `terminateAll`, the client count is zero forever. */
  lemma NoClientsAfterTerminateAll(events: seq<Event>, drain: seq<Event>, more: seq<Event>)
    ensures Run(EMPTY, events + [CloseAll] + drain + [TerminateAll] + more).clients == {}
  {
    hide Step;
    var before := events + [CloseAll] + drain;
    var s := Run(EMPTY, before);
    NothingIsBridgedAfterCloseAll(events, drain);
    RunKeeps(EMPTY, before);
    assert (before + [TerminateAll])[..|before|] == before;
    StepKeeps(s, TerminateAll);
    ShutdownEffects(s);
    RunSplits(EMPTY, before + [TerminateAll], more);
    ClosingShrinks(Step(s, TerminateAll), more);
  }
}
