/** The bridge as the object it is in packages/actors-gateway/src/ws.ts, whose callbacks update
    `pending`, `clients`, `closing` and the upgrade entries, and the shutdown drain of
    packages/actors-gateway/src/server.ts around it.  Every method is proved to perform exactly
    the event of `SocketBridge` that it stands for. */
module Gateway {
  import opened Wrappers
  import opened SocketBridge

  class Bridge {
    var upgrades: seq<Upgrade>
    var pending: set<nat>
    var upstreams: seq<Upstream>
    var bridged: seq<Client>
    var clients: set<nat>
    var closing: bool

    ghost function View(): State
      reads this
    {
      State(upgrades, pending, upstreams, bridged, clients, closing)
    }

    constructor ()
      ensures View() == EMPTY && Inv(View())
    {
      upgrades, pending, upstreams, bridged, clients, closing := [], {}, [], [], {}, false;
    }

    /** `settle`: the only arbiter; false when something else already answered. */
    method SettleEntry(e: nat, answer: Answer) returns (won: bool)
      requires e < |upgrades|
      modifies this`upgrades, this`pending
      ensures won == !old(upgrades[e].settled)
      ensures View() == if won then Settle(old(View()), e, answer) else old(View())
    {
      if upgrades[e].settled { return false; }
      upgrades := upgrades[e := upgrades[e].(settled := true, answers := upgrades[e].answers + [answer])];
      pending := pending - {e};
      return true;
    }

    method TellUpstream(u: Option<nat>)
      modifies this`upstreams
      ensures View() == Tell(old(View()), u)
    {
      if u.Some? && u.value < |upstreams| {
        upstreams := upstreams[u.value := upstreams[u.value].(told := true)];
      }
    }

    method HandleUpgrade(refusal: Option<nat>, head: seq<Byte>)
      modifies this
      ensures View() == OnArrive(old(View()), refusal, head)
    {
      var refused := refusal;
      if closing { refused := Some(503); }
      else if refusal.None? && |head| > MAX_EARLY_BYTES { refused := Some(400); }
      if refused.Some? {
        upgrades := upgrades + [Upgrade(true, Finished, None, head, [], |head|, [Refused(refused.value)])];
        return;
      }
      pending := pending + {|upgrades|};
      upgrades := upgrades + [Upgrade(false, Verifying, None, head, [], |head|, [])];
    }

    method RefuseEntry(e: nat, status: nat)
      requires e < |upgrades|
      modifies this
      ensures View() == Refuse(old(View()), e, status)
    {
      var _ := SettleEntry(e, Refused(status));
      upgrades := upgrades[e := upgrades[e].(stage := Finished)];
    }

    /** The asynchronous part of `handleUpgrade` goes on after a credential check, a probe or a
        grant: each step looks at `settled` before the next, so an upgrade answered meanwhile
        opens no upstream. */
    method Proceed(ev: Event)
      requires Enabled(View(), ev) && (ev.Verified? || ev.Probed? || ev.Granted?)
      modifies this
      ensures View() == Step(old(View()), ev)
    {
      var e := ev.entry;
      var refusal := match ev
        case Verified(_, refusal) => refusal
        case Probed(_, NoGrant(status)) => Some(if status == 200 then 502 else status)
        case Probed(_, ProbeFailed(status)) => Some(status)
        case Granted(_, GrantFailed(status)) => Some(status)
        case _ => None;
      if refusal.Some? { RefuseEntry(e, refusal.value); return; }
      if upgrades[e].settled || ev.Granted? {
        var opening := !upgrades[e].settled;
        upgrades := upgrades[e := upgrades[e].(stage := Finished)];
        if opening {
          upgrades := upgrades[e := upgrades[e].(upstream := Some(|upstreams|))];
          upstreams := upstreams + [Upstream(e, Connecting, false, None)];
        }
        return;
      }
      upgrades := upgrades[e := upgrades[e].(stage := if ev.Verified? then Probing else Granting)];
    }

    /** `onGone`: the client's socket ended or closed before its answer. */
    method Gone(e: nat)
      requires e < |upgrades|
      modifies this
      ensures View() == Cancel(old(View()), e, Dropped)
    {
      var won := SettleEntry(e, Dropped);
      if !won { return; }
      TellUpstream(upgrades[e].upstream);
    }

    /** `onData`: what arrives before the answer is buffered, up to the limit. */
    method Data(e: nat, chunk: seq<Byte>)
      requires e < |upgrades|
      modifies this
      ensures View() == OnClientSent(old(View()), e, chunk)
    {
      if upgrades[e].settled { return; }
      upgrades := upgrades[e := upgrades[e].(earlyBytes := upgrades[e].earlyBytes + |chunk|)];
      if upgrades[e].earlyBytes > MAX_EARLY_BYTES {
        Gone(e);
        return;
      }
      upgrades := upgrades[e := upgrades[e].(early := upgrades[e].early + [chunk])];
    }

    method UpstreamOpen(u: nat, usable: bool)
      requires u < |upstreams| && upstreams[u].entry < |upgrades|
      modifies this
      ensures View() == OnOpened(old(View()), u, usable)
    {
      var e := upstreams[u].entry;
      upstreams := upstreams[u := upstreams[u].(link := Open)];
      var won := SettleEntry(e, if usable then Bridged else Dropped);
      if !won || !usable {
        TellUpstream(Some(u));
        return;
      }
      var c := |bridged|;
      upstreams := upstreams[u := upstreams[u].(client := Some(c))];
      bridged := bridged + [Client(u, upgrades[e].head + Flatten(upgrades[e].early), false, false)];
      clients := clients + {c};
    }

    /** A socket ends: an upstream before it opened, or either side of a piped pair. */
    method SocketEnded(ev: Event)
      requires Enabled(View(), ev) && (ev.UpstreamFailed? || ev.UpstreamClosed? || ev.ClientClosed?)
      modifies this
      ensures View() == Step(old(View()), ev)
    {
      if ev.ClientClosed? {
        clients := clients - {ev.client};
        bridged := bridged[ev.client := bridged[ev.client].(gone := true)];
        TellUpstream(Some(bridged[ev.client].upstream));
        return;
      }
      var u := ev.upstream;
      upstreams := upstreams[u := upstreams[u].(link := Link.Gone)];
      if ev.UpstreamFailed? {
        var _ := SettleEntry(upstreams[u].entry, Closed1011(ev.usable));
        return;
      }
      var c := upstreams[u].client;
      if c.Some? && c.value < |bridged| {
        clients := clients - {c.value};
        bridged := bridged[c.value := bridged[c.value].(told := true)];
      }
    }

    method TellClients()
      modifies this`bridged
      ensures View() == old(View()).(bridged := old(OnTerminateAll(View()).bridged))
    {
      ghost var was := bridged;
      var c := 0;
      while c < |bridged|
        invariant 0 <= c <= |bridged| == |was|
        invariant forall k :: 0 <= k < |was| ==> bridged[k] == if k < c && k in clients then was[k].(told := true) else was[k]
      {
        if c in clients { bridged := bridged[c := bridged[c].(told := true)]; }
        c := c + 1;
      }
      assert bridged == old(OnTerminateAll(View()).bridged);
    }

    /** The shutdown of the upgrades in `done`, one by one. */
    ghost predicate ShutSoFar(was: State, done: set<nat>)
      reads this
    {
      && |upgrades| == |was.upgrades| && |upstreams| == |was.upstreams|
      && (forall i :: 0 <= i < |upgrades| ==> upgrades[i] == if i in done then Shutdown(was.upgrades[i]) else was.upgrades[i])
      && (forall u :: 0 <= u < |upstreams| ==>
            upstreams[u] == if Owned(was, u) && was.upstreams[u].entry in done
                            then was.upstreams[u].(told := true) else was.upstreams[u])
      && pending == was.pending - done
      && bridged == was.bridged && clients == was.clients && closing
    }

    /** `closeAll`: refuse what is pending, tell every client. */
    method CloseEverything()
      requires Inv(View())
      modifies this
      ensures View() == OnCloseAll(old(View()))
    {
      hide Flatten;
      ghost var was := View();
      closing := true;
      var left := pending;
      while left != {}
        invariant left <= was.pending && ShutSoFar(was, was.pending - left)
        decreases left
      {
        var e :| e in left;
        assert UpgradeOk(was, e) && e !in was.pending - left;
        assert forall u | 0 <= u < |was.upstreams| :: UpstreamOk(was, u);
        var _ := SettleEntry(e, Refused(503));
        TellUpstream(upgrades[e].upstream);
        left := left - {e};
        assert was.pending - left == (was.pending - left - {e}) + {e};
      }
      assert upgrades == OnCloseAll(was).upgrades;
      assert upstreams == OnCloseAll(was).upstreams;
      TellClients();
    }

    /** `terminateAll`: no client is listed any more, although none has closed yet. */
    method TerminateEverything()
      modifies this
      ensures View() == OnTerminateAll(old(View()))
    {
      TellClients();
      clients := {};
    }

    /** Whichever callback comes next. */
    method Handle(ev: Event)
      requires Inv(View())
      modifies this
      ensures View() == Step(old(View()), ev) && Inv(View())
    {
      StepKeeps(View(), ev);
      if !Enabled(State(upgrades, pending, upstreams, bridged, clients, closing), ev) { return; }
      match ev {
        case Arrive(refusal, head) => HandleUpgrade(refusal, head);
        case Verified(_, _) => Proceed(ev);
        case Probed(_, _) => Proceed(ev);
        case Granted(_, _) => Proceed(ev);
        case ClientLeft(e) => Gone(e);
        case ClientSent(e, chunk) => Data(e, chunk);
        case UpstreamOpened(u, usable) => UpstreamOpen(u, usable);
        case UpstreamFailed(_, _) => SocketEnded(ev);
        case UpstreamClosed(_) => SocketEnded(ev);
        case ClientClosed(_) => SocketEnded(ev);
        case CloseAll => CloseEverything();
        case TerminateAll => TerminateEverything();
      }
    }
  }

  /** What happens while the drain loop sleeps once: time passes, callbacks run, requests end. */
  datatype Poll = Poll(elapsed: nat, events: seq<Event>, inflight: nat)

  /** The callbacks of the first `n` sleeps, in order. */
  ghost function EventsOf(polls: nat -> Poll, n: nat): seq<Event> {
    if n == 0 then [] else EventsOf(polls, n - 1) + polls(n - 1).events
  }

  class Server {
    const bridge: Bridge
    var closing: bool

    constructor ()
      ensures fresh(bridge) && bridge.View() == EMPTY && Inv(EMPTY) && !closing
    {
      bridge := new Bridge();
      closing := false;
    }

    /** Run the callbacks that arrive during one sleep. */
    method Callbacks(events: seq<Event>)
      requires Inv(bridge.View())
      modifies bridge
      ensures Inv(bridge.View()) && bridge.View() == Run(old(bridge.View()), events)
    {
      hide Step;
      var i := 0;
      while i < |events|
        invariant 0 <= i <= |events|
        invariant Inv(bridge.View()) && bridge.View() == Run(old(bridge.View()), events[..i])
      {
        bridge.Handle(events[i]);
        assert events[..i + 1][..i] == events[..i];
        i := i + 1;
      }
      assert events[..|events|] == events;
    }

    /** The polling loop of `close`. */
    method Drain(start: nat, deadline: nat, inflightAtStart: nat, polls: nat -> Poll)
      returns (finished: nat, rounds: nat, left: nat)
      requires Inv(bridge.View()) && bridge.closing && forall k :: polls(k).elapsed > 0
      modifies bridge
      ensures Inv(bridge.View()) && bridge.closing
      ensures bridge.View() == Run(old(bridge.View()), EventsOf(polls, rounds))
      ensures rounds > 0 ==> finished < deadline + polls(rounds - 1).elapsed
      ensures finished < deadline ==> left == 0
    {
      hide Step;
      ghost var was := bridge.View();
      finished, rounds := start, 0;
      var inflight: nat := inflightAtStart;
      while (inflight > 0 || bridge.clients != {}) && finished < deadline
        invariant Inv(bridge.View()) && bridge.closing
        invariant bridge.View() == Run(was, EventsOf(polls, rounds))
        invariant rounds > 0 ==> finished < deadline + polls(rounds - 1).elapsed
        decreases deadline - finished
      {
        var poll := polls(rounds);
        ClosingShrinks(bridge.View(), poll.events);
        Callbacks(poll.events);
        RunSplits(was, EventsOf(polls, rounds), poll.events);
        finished, inflight, rounds := finished + poll.elapsed, poll.inflight, rounds + 1;
      }
      left := inflight + |bridge.clients|;
    }

    /** `close`: refuse and close everything, wait for open requests and open clients
        until they are done or the grace deadline passes, then drop what is left.  The drain
        always ends; its last sleep began before the deadline; it ends early only when nothing
        was left; and the bridge went through `closeAll`, whatever callbacks came while it
        slept, and `terminateAll`, so that by `NoClientsAfterTerminateAll` no client remains
        then or later. */
    method Close(start: nat, graceMs: nat, inflightAtStart: nat, polls: nat -> Poll)
      returns (finished: nat, rounds: nat, left: nat)
      requires Inv(bridge.View()) && forall k :: polls(k).elapsed > 0
      modifies this, bridge
      ensures closing && Inv(bridge.View())
      ensures old(closing) ==> bridge.View() == old(bridge.View()) && finished == start && rounds == 0
      ensures !old(closing) ==>
                && bridge.View() == Run(old(bridge.View()), [CloseAll] + EventsOf(polls, rounds) + [TerminateAll])
                && (rounds > 0 ==> finished < start + graceMs + polls(rounds - 1).elapsed)
                && (finished < start + graceMs ==> left == 0)
                && bridge.closing && bridge.pending == {} && bridge.clients == {}
    {
      hide Step;
      finished, rounds, left := start, 0, 0;
      if closing { return; }
      ghost var was := bridge.View();
      closing := true;
      bridge.Handle(CloseAll);
      ghost var closed := bridge.View();
      ShutdownEffects(was);
      finished, rounds, left := Drain(start, start + graceMs, inflightAtStart, polls);
      ghost var drained := bridge.View();
      bridge.Handle(TerminateAll);
      ShutdownEffects(drained);
      RunOne(was, CloseAll);
      RunSplits(was, [CloseAll], EventsOf(polls, rounds));
      RunOne(drained, TerminateAll);
      RunSplits(was, [CloseAll] + EventsOf(polls, rounds), [TerminateAll]);
    }
  }
}
