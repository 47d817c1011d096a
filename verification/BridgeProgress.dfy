/** What the bridge owes an upgrade: which event answers it and how, that it is never left with
    nothing to wait for, and that one which is verified, granted and opened is bridged. */
module BridgeProgress {
  import opened Wrappers
  import opened SocketBridge

  // ---- which event gives which answer ---------------------------------------------------

  /** The answer an event gives to an upgrade that has none. */
  ghost function AnswerBy(s: State, ev: Event, i: nat): Option<Answer>
    requires i < |s.upgrades|
  {
    var u := s.upgrades[i];
    match ev
    case Verified(e, Some(status)) => if e == i && u.stage.Verifying? then Some(Refused(status)) else None
    case Probed(e, NoGrant(status)) =>
      if e == i && u.stage.Probing? then Some(Refused(if status == 200 then 502 else status)) else None
    case Probed(e, ProbeFailed(status)) => if e == i && u.stage.Probing? then Some(Refused(status)) else None
    case Granted(e, GrantFailed(status)) => if e == i && u.stage.Granting? then Some(Refused(status)) else None
    case ClientLeft(e) => if e == i then Some(Dropped) else None
    case ClientSent(e, chunk) =>
      if e == i && |u.head| + |Flatten(u.early)| + |chunk| > 16 * 1024 then Some(Dropped) else None
    case UpstreamOpened(w, usable) =>
      if u.upstream == Some(w) && w < |s.upstreams| && s.upstreams[w].link.Connecting?
      then Some(if usable then Bridged else Dropped) else None
    case UpstreamFailed(w, usable) =>
      if u.upstream == Some(w) && w < |s.upstreams| && s.upstreams[w].link.Connecting? then Some(Closed1011(usable)) else None
    case CloseAll => Some(Refused(503))
    case _ => None
  }

  ghost predicate AnsweredBy(s: State, ev: Event, i: nat)
    requires i < |s.upgrades|
  {
    var t := Step(s, ev);
    && i < |t.upgrades|
    && t.upgrades[i].answers == (match AnswerBy(s, ev, i) case Some(a) => [a] case None => [])
    && (t.upgrades[i].settled <==> AnswerBy(s, ev, i).Some?)
  }

  /** Exactly these events answer, with exactly these answers. */
  lemma StepAnswers(s: State, ev: Event, i: nat)
    requires Inv(s) && i < |s.upgrades| && !s.upgrades[i].settled
    ensures AnsweredBy(s, ev, i)
  {
    hide AnsweredBy;
    if ev.Verified? || ev.Probed? || ev.Granted? { StageAnswers(s, ev, i); }
    else if ev.UpstreamOpened? || ev.UpstreamFailed? { SocketAnswers(s, ev, i); }
    else { OtherAnswers(s, ev, i); }
  }

  lemma StageAnswers(s: State, ev: Event, i: nat)
    requires Inv(s) && i < |s.upgrades| && !s.upgrades[i].settled && (ev.Verified? || ev.Probed? || ev.Granted?)
    ensures AnsweredBy(s, ev, i)
  {
    hide Flatten;
    assert UpgradeOk(s, i);
    assert s.upgrades[i].answers == [];
  }

  lemma SocketAnswers(s: State, ev: Event, i: nat)
    requires Inv(s) && i < |s.upgrades| && !s.upgrades[i].settled && (ev.UpstreamOpened? || ev.UpstreamFailed?)
    ensures AnsweredBy(s, ev, i)
  {
    hide Flatten;
    assert UpgradeOk(s, i);
    assert s.upgrades[i].answers == [];
    if ev.upstream < |s.upstreams| { assert UpstreamOk(s, ev.upstream); }
  }

  lemma OtherAnswers(s: State, ev: Event, i: nat)
    requires Inv(s) && i < |s.upgrades| && !s.upgrades[i].settled
    requires !ev.Verified? && !ev.Probed? && !ev.Granted? && !ev.UpstreamOpened? && !ev.UpstreamFailed?
    ensures AnsweredBy(s, ev, i)
  {
    hide Flatten;
    assert UpgradeOk(s, i);
    assert s.upgrades[i].answers == [];
  }

  /** A new upgrade is refused at once while the bridge closes, when it is not acceptable itself,
      or when it brings more than 16 KiB along; otherwise it waits for its credential check. */
  lemma ArrivalIsAnswered(s: State, refusal: Option<nat>, head: seq<Byte>)
    ensures var t := Step(s, Arrive(refusal, head));
            var status := if s.closing then Some(503) else if refusal.Some? then refusal
                          else if |head| > 16 * 1024 then Some(400) else None;
      && |t.upgrades| == |s.upgrades| + 1 && t.upgrades[..|s.upgrades|] == s.upgrades
      && var u := t.upgrades[|s.upgrades|];
         && u.head == head && u.early == [] && u.upstream.None?
         && (status.Some? ==> u.answers == [Refused(status.value)] && u.stage.Finished?)
         && (status.None? ==> u.answers == [] && u.stage.Verifying? && |s.upgrades| in t.pending)
  {
  }

  // ---- never left behind ----------------------------------------------------------------

  /** In every run an upgrade without an answer waits for its credential check, its probe, its
      grant, or an upstream that is on its way and was not told to close. */
  lemma NeverLeftBehind(events: seq<Event>, i: nat)
    requires i < |Run(EMPTY, events).upgrades| && Run(EMPTY, events).upgrades[i].answers == []
    ensures var s := Run(EMPTY, events); s.upgrades[i].stage != Finished || Opening(s, i)
  {
    RunKeeps(EMPTY, events);
    assert UpgradeOk(Run(EMPTY, events), i);
  }

  /** In every run an upstream that was told to close has no open client: its upgrade was
      answered otherwise, or the client it was piped to has gone. */
  lemma NoneIsToldInVain(events: seq<Event>, u: nat)
    requires u < |Run(EMPTY, events).upstreams| && Run(EMPTY, events).upstreams[u].told
    ensures var s := Run(EMPTY, events);
            var up := s.upstreams[u];
      && up.entry < |s.upgrades| && s.upgrades[up.entry].settled
      && (s.upgrades[up.entry].answers == [Bridged] ==>
            up.client.Some? && up.client.value < |s.bridged| && s.bridged[up.client.value].gone)
  {
    RunKeeps(EMPTY, events);
    var s := Run(EMPTY, events);
    assert UpstreamOk(s, u);
    assert UpgradeOk(s, s.upstreams[u].entry);
  }

  /** A bridged client is told to close only by a shutdown or because its upstream closed. */
  lemma ClientIsToldOnlyIf(s: State, ev: Event, c: nat)
    requires Inv(s) && c < |s.bridged| && !s.bridged[c].told && Step(s, ev).bridged[c].told
    ensures ev.CloseAll? || ev.TerminateAll? || ev == UpstreamClosed(s.bridged[c].upstream)
  {
    if ev.UpstreamClosed? && ev.upstream < |s.upstreams| { assert UpstreamOk(s, ev.upstream); }
  }

  // ---- the clients ----------------------------------------------------------------------

  /** What an event does to the bridged client `c` and its upstream. */
  lemma ClientStep(s: State, ev: Event, c: nat)
    requires Inv(s) && c < |s.bridged|
    ensures var t := Step(s, ev);
            var closes := ev == UpstreamClosed(s.bridged[c].upstream) && s.upstreams[s.bridged[c].upstream].link.Open?;
            var shuts := (ev.CloseAll? || ev.TerminateAll?) && c in s.clients;
      && c < |t.bridged| && t.bridged[c].upstream == s.bridged[c].upstream
      && t.bridged[c].gone == (s.bridged[c].gone || ev == ClientClosed(c))
      && t.bridged[c].told == (s.bridged[c].told || closes || shuts)
      && (c in t.clients <==> c in s.clients && ev != ClientClosed(c) && !closes && !ev.TerminateAll?)
      && var u := s.bridged[c].upstream;
         && u < |s.upstreams| && u < |t.upstreams|
         && t.upstreams[u].link == (if closes then Gone else s.upstreams[u].link)
         && t.upstreams[u].told == (s.upstreams[u].told || (ev == ClientClosed(c) && !s.bridged[c].gone))
  {
    if ev.UpstreamOpened? || ev.UpstreamFailed? || ev.UpstreamClosed? { SocketClientStep(s, ev, c); }
    else { OtherClientStep(s, ev, c); }
  }

  ghost predicate IsClientStep(s: State, ev: Event, c: nat)
    requires c < |s.bridged| && s.bridged[c].upstream < |s.upstreams|
  {
    var t := Step(s, ev);
    var closes := ev == UpstreamClosed(s.bridged[c].upstream) && s.upstreams[s.bridged[c].upstream].link.Open?;
    var shuts := (ev.CloseAll? || ev.TerminateAll?) && c in s.clients;
    && c < |t.bridged| && t.bridged[c].upstream == s.bridged[c].upstream
    && t.bridged[c].gone == (s.bridged[c].gone || ev == ClientClosed(c))
    && t.bridged[c].told == (s.bridged[c].told || closes || shuts)
    && (c in t.clients <==> c in s.clients && ev != ClientClosed(c) && !closes && !ev.TerminateAll?)
    && var u := s.bridged[c].upstream;
       && u < |t.upstreams|
       && t.upstreams[u].link == (if closes then Gone else s.upstreams[u].link)
       && t.upstreams[u].told == (s.upstreams[u].told || (ev == ClientClosed(c) && !s.bridged[c].gone))
  }

  lemma SocketClientStep(s: State, ev: Event, c: nat)
    requires Inv(s) && c < |s.bridged| && (ev.UpstreamOpened? || ev.UpstreamFailed? || ev.UpstreamClosed?)
    ensures s.bridged[c].upstream < |s.upstreams| && IsClientStep(s, ev, c)
  {
    hide Inv, IsClientStep;
    if ev.UpstreamClosed? { ClosedClientStep(s, ev.upstream, c); } else { ConnectingClientStep(s, ev, c); }
  }

  lemma ClosedClientStep(s: State, u: nat, c: nat)
    requires Inv(s) && c < |s.bridged|
    ensures s.bridged[c].upstream < |s.upstreams| && IsClientStep(s, UpstreamClosed(u), c)
  {
    hide Flatten, Opening, Piped, UpgradesOk;
    assert UpstreamOk(s, s.bridged[c].upstream);
    if u < |s.upstreams| { assert UpstreamOk(s, u); }
  }

  /** An upstream that is only connecting has no client yet. */
  lemma ConnectingClientStep(s: State, ev: Event, c: nat)
    requires Inv(s) && c < |s.bridged| && (ev.UpstreamOpened? || ev.UpstreamFailed?)
    ensures s.bridged[c].upstream < |s.upstreams| && IsClientStep(s, ev, c)
  {
    hide Inv, IsClientStep;
    if ev.UpstreamOpened? { OpenedClientStep(s, ev.upstream, ev.usable, c); } else { FailedClientStep(s, ev.upstream, ev.usable, c); }
  }

  lemma OpenedClientStep(s: State, u: nat, usable: bool, c: nat)
    requires Inv(s) && c < |s.bridged|
    ensures s.bridged[c].upstream < |s.upstreams| && IsClientStep(s, UpstreamOpened(u, usable), c)
  {
    hide Flatten, Opening, Piped, UpgradesOk;
    assert UpstreamOk(s, s.bridged[c].upstream);
    if u < |s.upstreams| { assert UpstreamOk(s, u); }
  }

  lemma FailedClientStep(s: State, u: nat, usable: bool, c: nat)
    requires Inv(s) && c < |s.bridged|
    ensures s.bridged[c].upstream < |s.upstreams| && IsClientStep(s, UpstreamFailed(u, usable), c)
  {
    hide Flatten, Opening, Piped, UpgradesOk;
    assert UpstreamOk(s, s.bridged[c].upstream);
    if u < |s.upstreams| { assert UpstreamOk(s, u); }
  }

  lemma OtherClientStep(s: State, ev: Event, c: nat)
    requires Inv(s) && c < |s.bridged| && !ev.UpstreamOpened? && !ev.UpstreamFailed? && !ev.UpstreamClosed?
    ensures s.bridged[c].upstream < |s.upstreams| && IsClientStep(s, ev, c)
  {
    hide Inv, IsClientStep;
    if ev.ClientClosed? || ev.CloseAll? || ev.TerminateAll? { EndingClientStep(s, ev, c); } else { UpgradeClientStep(s, ev, c); }
  }

  lemma EndingClientStep(s: State, ev: Event, c: nat)
    requires Inv(s) && c < |s.bridged| && (ev.ClientClosed? || ev.CloseAll? || ev.TerminateAll?)
    ensures s.bridged[c].upstream < |s.upstreams| && IsClientStep(s, ev, c)
  {
    hide Flatten, Opening, Piped;
    assert UpstreamOk(s, s.bridged[c].upstream);
    assert UpgradeOk(s, s.upstreams[s.bridged[c].upstream].entry);
  }

  /** An event of an upgrade without an answer touches no client and no client's upstream. */
  lemma UpgradeClientStep(s: State, ev: Event, c: nat)
    requires Inv(s) && c < |s.bridged|
    requires ev.Arrive? || ev.Verified? || ev.Probed? || ev.Granted? || ev.ClientLeft? || ev.ClientSent?
    ensures s.bridged[c].upstream < |s.upstreams| && IsClientStep(s, ev, c)
  {
    hide Flatten, Opening, Piped;
    var u := s.bridged[c].upstream;
    assert UpstreamOk(s, u);
    UpgradeStepIsLocal(s, ev);
    if !ev.Arrive? && ev.entry < |s.upgrades| {
      assert UpgradeOk(s, ev.entry);
      assert s.upgrades[ev.entry].settled || s.upgrades[ev.entry].upstream != Some(u);
    }
    hide Step;
  }

  /** Such an event leaves the clients alone, and of the upstreams opened so far it tells at most
      its own upgrade's, if that has no answer. */
  lemma UpgradeStepIsLocal(s: State, ev: Event)
    requires ev.Arrive? || ev.Verified? || ev.Probed? || ev.Granted? || ev.ClientLeft? || ev.ClientSent?
    ensures var t := Step(s, ev);
      && t.bridged == s.bridged && t.clients == s.clients && |t.upstreams| >= |s.upstreams|
      && forall u :: 0 <= u < |s.upstreams| ==>
           t.upstreams[u] == s.upstreams[u]
           || (!ev.Arrive? && ev.entry < |s.upgrades| && !s.upgrades[ev.entry].settled && s.upgrades[ev.entry].upstream == Some(u))
  {
    hide Flatten;
  }

  /** While nothing is terminated a client is listed exactly as long as both its sides are open,
      and it was told to close if its upstream closed. */
  ghost predicate ListsOpen(s: State) {
    forall c :: 0 <= c < |s.bridged| ==>
      && s.bridged[c].upstream < |s.upstreams| && s.upstreams[s.bridged[c].upstream].link != Connecting
      && (c in s.clients <==> !s.bridged[c].gone && s.upstreams[s.bridged[c].upstream].link.Open?)
      && (s.upstreams[s.bridged[c].upstream].link == Gone ==> s.bridged[c].told)
  }

  lemma StepListsOpen(s: State, ev: Event)
    requires Inv(s) && ListsOpen(s) && !ev.TerminateAll?
    ensures ListsOpen(Step(s, ev))
  {
    hide Step, Flatten, UpgradesOk;
    var t := Step(s, ev);
    StepFrames(s, ev);
    StepKeeps(s, ev);
    forall c | 0 <= c < |t.bridged|
      ensures && t.bridged[c].upstream < |t.upstreams| && t.upstreams[t.bridged[c].upstream].link != Connecting
              && (c in t.clients <==> !t.bridged[c].gone && t.upstreams[t.bridged[c].upstream].link.Open?)
              && (t.upstreams[t.bridged[c].upstream].link == Gone ==> t.bridged[c].told)
    {
      if c < |s.bridged| { ClientStep(s, ev, c); } else { NewClientIsOpen(s, ev, c); }
    }
  }

  lemma NewClientIsOpen(s: State, ev: Event, c: nat)
    requires Inv(s) && |s.bridged| <= c < |Step(s, ev).bridged|
    ensures var t := Step(s, ev);
      && c in t.clients && !t.bridged[c].gone && t.bridged[c].upstream < |t.upstreams| && t.upstreams[t.bridged[c].upstream].link.Open?
  {
  }

  lemma {:induction false} ListedIffOpen(events: seq<Event>)
    requires forall i :: 0 <= i < |events| ==> !events[i].TerminateAll?
    ensures ListsOpen(Run(EMPTY, events))
    decreases |events|
  {
    hide Step, ListsOpen;
    if events != [] {
      var before := events[..|events| - 1];
      ListedIffOpen(before);
      RunKeeps(EMPTY, before);
      StepListsOpen(Run(EMPTY, before), events[|events| - 1]);
    } else {
      NobodyListed();
    }
  }

  lemma NobodyListed()
    ensures ListsOpen(EMPTY)
  {
  }

  // ---- from arrival to bridge -----------------------------------------------------------

  ghost function Rank(stage: Stage): nat {
    match stage case Verifying => 0 case Probing => 1 case Granting => 2 case Finished => 3
  }

  /** While an upgrade has no answer its stage only advances. */
  lemma StepAdvances(s: State, ev: Event, i: nat)
    requires Inv(s) && i < |s.upgrades| && !Step(s, ev).upgrades[i].settled
    ensures !s.upgrades[i].settled && Rank(Step(s, ev).upgrades[i].stage) >= Rank(s.upgrades[i].stage)
    ensures ev == Verified(i, None) ==> Rank(Step(s, ev).upgrades[i].stage) >= 1
    ensures ev == Probed(i, Grant) && s.upgrades[i].stage != Verifying ==> Rank(Step(s, ev).upgrades[i].stage) >= 2
    ensures ev == Granted(i, SocketUrl) && Rank(s.upgrades[i].stage) >= 2 ==> Rank(Step(s, ev).upgrades[i].stage) == 3
  {
    hide Flatten;
    StaysUnanswered(s, ev, i);
  }

  lemma StaysUnanswered(s: State, ev: Event, i: nat)
    requires Inv(s) && i < |s.upgrades|
    ensures i < |Step(s, ev).upgrades| && (!Step(s, ev).upgrades[i].settled ==> !s.upgrades[i].settled)
  {
    hide Step, Inv;
    StepFrames(s, ev);
    assert UpgradeFrame(s, ev, Step(s, ev), i);
  }

  lemma {:induction false} RunAdvances(s: State, events: seq<Event>, i: nat)
    requires Inv(s) && i < |s.upgrades| && i < |Run(s, events).upgrades| && !Run(s, events).upgrades[i].settled
    ensures !s.upgrades[i].settled && Rank(Run(s, events).upgrades[i].stage) >= Rank(s.upgrades[i].stage)
    decreases |events|
  {
    hide Step, Rank;
    if events != [] {
      var before, ev := events[..|events| - 1], events[|events| - 1];
      RunKeeps(s, before);
      RunGrows(s, before);
      StepAdvances(Run(s, before), ev, i);
      RunAdvances(s, before, i);
    }
  }

  lemma {:induction false} RunGrows(s: State, events: seq<Event>)
    requires Inv(s)
    ensures |s.upgrades| <= |Run(s, events).upgrades|
    decreases |events|
  {
    hide Step;
    if events != [] {
      RunKeeps(s, events[..|events| - 1]);
      RunGrows(s, events[..|events| - 1]);
      StepFrames(Run(s, events[..|events| - 1]), events[|events| - 1]);
    }
  }

  /** The bridging itself: an upgrade whose upstream opens usably is answered, its client is
      listed and piped to that upstream, fed what it sent, and neither is told to close. */
  lemma OpeningBridges(s: State, i: nat)
    requires Inv(s) && i < |s.upgrades| && !s.upgrades[i].settled && Opening(s, i)
    ensures var w := s.upgrades[i].upstream.value;
            var t := Step(s, UpstreamOpened(w, true));
            var c := |s.bridged|;
      && t.upgrades[i].answers == [Bridged] && t.clients == s.clients + {c} && |t.bridged| == c + 1
      && t.upstreams[w].client == Some(c) && t.upstreams[w].link.Open? && !t.upstreams[w].told
      && t.bridged[c] == Client(w, s.upgrades[i].head + Flatten(s.upgrades[i].early), false, false)
      && Piped(t, w)
  {
    hide Flatten;
    assert UpgradeOk(s, i);
    assert UpstreamOk(s, s.upgrades[i].upstream.value);
  }

  /** From every reachable state: an upgrade that is waiting, then verified, granted by its actor
      and given a socket, with any events in between that leave it unanswered, holds an upstream
      on its way; and when that opens usably the upgrade is bridged. */
  lemma UpgradeIsBridged(history: seq<Event>, i: nat, a: seq<Event>, b: seq<Event>, c: seq<Event>)
    requires i < |Run(EMPTY, history).upgrades|
    requires var s := Run(EMPTY, history + [Verified(i, None)] + a + [Probed(i, Grant)] + b + [Granted(i, SocketUrl)] + c);
             i < |s.upgrades| && s.upgrades[i].answers == []
    ensures var s := Run(EMPTY, history + [Verified(i, None)] + a + [Probed(i, Grant)] + b + [Granted(i, SocketUrl)] + c);
      && Opening(s, i)
      && var w := s.upgrades[i].upstream.value;
         var t := Step(s, UpstreamOpened(w, true));
         t.upgrades[i].answers == [Bridged] && |s.bridged| in t.clients && t.upstreams[w].client == Some(|s.bridged|) && Piped(t, w)
  {
    hide Step, Rank, Run;
    var e0 := history + [Verified(i, None)];
    var e1 := e0 + a;
    var e2 := e1 + [Probed(i, Grant)];
    var e3 := e2 + b;
    var e4 := e3 + [Granted(i, SocketUrl)];
    var e5 := e4 + c;
    RunKeeps(EMPTY, e5);
    assert UpgradeOk(Run(EMPTY, e5), i);
    Reached(history, e0, i);
    Reached(e0, e1, i);
    Reached(e1, e2, i);
    Reached(e2, e3, i);
    Reached(e3, e4, i);
    Back(e4, c, i);
    OneStep(e3, Granted(i, SocketUrl), i);
    Back(e2, b, i);
    OneStep(e1, Probed(i, Grant), i);
    Back(e0, a, i);
    OneStep(history, Verified(i, None), i);
    Ranks(Run(EMPTY, e0).upgrades[i].stage, Run(EMPTY, e1).upgrades[i].stage);
    FinalRank(Run(EMPTY, e5).upgrades[i].stage);
    OpeningBridges(Run(EMPTY, e5), i);
  }

  lemma Ranks(x: Stage, y: Stage)
    requires Rank(x) >= 1 && Rank(y) >= Rank(x)
    ensures y != Verifying
  {
  }

  lemma FinalRank(x: Stage)
    ensures Rank(x) == 3 <==> x == Finished
    ensures Rank(x) <= 3
  {
  }

  lemma Reached(a: seq<Event>, b: seq<Event>, i: nat)
    requires a <= b && i < |Run(EMPTY, a).upgrades|
    ensures i < |Run(EMPTY, b).upgrades| && Inv(Run(EMPTY, b)) && Inv(Run(EMPTY, a))
  {
    hide Step;
    assert b == a + b[|a|..];
    RunSplits(EMPTY, a, b[|a|..]);
    RunKeeps(EMPTY, a);
    RunKeeps(EMPTY, b);
    RunGrows(Run(EMPTY, a), b[|a|..]);
  }

  /** Unanswered later, unanswered before, and no further than later. */
  lemma Back(a: seq<Event>, more: seq<Event>, i: nat)
    requires i < |Run(EMPTY, a).upgrades| && i < |Run(EMPTY, a + more).upgrades| && !Run(EMPTY, a + more).upgrades[i].settled
    ensures !Run(EMPTY, a).upgrades[i].settled
    ensures Rank(Run(EMPTY, a + more).upgrades[i].stage) >= Rank(Run(EMPTY, a).upgrades[i].stage)
  {
    hide Step, Rank;
    RunKeeps(EMPTY, a);
    RunSplits(EMPTY, a, more);
    RunAdvances(Run(EMPTY, a), more, i);
  }

  lemma OneStep(a: seq<Event>, ev: Event, i: nat)
    requires i < |Run(EMPTY, a).upgrades| && i < |Run(EMPTY, a + [ev]).upgrades| && !Run(EMPTY, a + [ev]).upgrades[i].settled
    ensures !Run(EMPTY, a).upgrades[i].settled
    ensures var x, y := Run(EMPTY, a).upgrades[i].stage, Run(EMPTY, a + [ev]).upgrades[i].stage;
      && Rank(y) >= Rank(x)
      && (ev == Verified(i, None) ==> Rank(y) >= 1)
      && (ev == Probed(i, Grant) && x != Verifying ==> Rank(y) >= 2)
      && (ev == Granted(i, SocketUrl) && Rank(x) >= 2 ==> Rank(y) == 3)
  {
    hide Step, Rank;
    RunKeeps(EMPTY, a);
    assert (a + [ev])[..|a|] == a;
    StepAdvances(Run(EMPTY, a), ev, i);
  }
}
