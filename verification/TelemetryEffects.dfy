/** What one call of `capture` does, stated on what the files held when it looked: when it
    notices an opt-out and what it then revokes, when it sends, and under which identity. */
module TelemetryEffects {
  import opened Wrappers
  import opened Telemetry

  // ---- what the files say ---------------------------------------------------------------

  /** Consent is withdrawn by the environment, or by a file that says so; never by a missing one. */
  ghost predicate OptsOut(file: ConsentFile, env: bool) {
    env || (file.ConsentFound? && file.disabled)
  }

  /** The identity a consent file names; a missing file names the one already in use. */
  ghost function Named(file: ConsentFile, own: Identity): Identity {
    if file.ConsentFound? then file.anonymousId else own
  }

  /** The identity in use by all processes, as far as it can be read. */
  ghost function InFile(file: IdentityFile, fallback: Identity): set<Identity> {
    match file
    case IdentityUnreadable => {}
    case IdentityMissing => {fallback}
    case IdentityFound(id) => {id}
  }

  /** The call gets past its first reads: consent and journal are readable. */
  ghost predicate Proceeds(io: Io) {
    !io.consent.ConsentUnreadable? && io.journalReadable
  }

  /** Everything revoked when the identity is chosen. */
  ghost function Known(o: Outcome, io: Io): set<Identity> {
    o.state.journal + io.othersFirst + o.state.pendingRevocations.GetOr({})
  }

  ghost predicate Adds(o: Outcome, r: Outcome, e: Effect) {
    exists j :: |o.log| <= j < |r.log| && r.log[j] == e
  }

  ghost predicate AddsOptOut(o: Outcome, r: Outcome) {
    exists j :: |o.log| <= j < |r.log| && r.log[j].OptOut?
  }

  ghost predicate AddsSent(o: Outcome, r: Outcome) {
    exists j :: |o.log| <= j < |r.log| && r.log[j].Sent?
  }

  // ---- opt-outs -------------------------------------------------------------------------

  /** A call that cannot read consent does nothing; one that cannot read the journal only
      learns what the journal holds by then. */
  lemma UnreadableDoesNothing(o: Outcome, io: Io)
    requires !Proceeds(io)
    ensures Capture(o, io).log == o.log
    ensures Capture(o, io).state == o.state.(journal := Capture(o, io).state.journal)
  {
  }

  /** The reads of a call, in terms of the files. */
  lemma Reads(o: Outcome, io: Io)
    requires Proceeds(io)
    ensures var current := LoadState(io.consent, o.state.identity);
      && current.Some? && current.value.anonymousId == Named(io.consent, o.state.identity)
      && (ConsentEnabled(current.value, io.envOptOut) <==> !OptsOut(io.consent, io.envOptOut))
      && SharedIds(LoadAnonymousId(io.identity, current.value.anonymousId)) == InFile(io.identity, current.value.anonymousId)
  {
  }

  /** What a call has done before it looks at the identity. */
  ghost function Noticed(o: Outcome, io: Io): Outcome
    requires Proceeds(io)
  {
    Reads(o, io);
    var current := LoadState(io.consent, o.state.identity).value;
    var shared := LoadAnonymousId(io.identity, current.anonymousId);
    var grown := o.(state := o.state.(journal := o.state.journal + io.othersFirst));
    Revoke(grown, current, shared, ConsentEnabled(current, io.envOptOut), io)
  }

  ghost function Turned(o: Outcome, io: Io): Outcome
    requires Proceeds(io)
  {
    Reads(o, io);
    var current := LoadState(io.consent, o.state.identity).value;
    var shared := LoadAnonymousId(io.identity, current.anonymousId);
    Rotate(Noticed(o, io), shared, current, ConsentEnabled(current, io.envOptOut), io)
  }

  lemma InPhases(o: Outcome, io: Io)
    requires Proceeds(io)
    ensures var current := LoadState(io.consent, o.state.identity).value;
            var shared := LoadAnonymousId(io.identity, current.anonymousId);
      Capture(o, io) == if Noticed(o, io).state.pendingRevocations.Some? then Noticed(o, io)
                        else Finish(Turned(o, io), o.state.identity, current, shared, ConsentEnabled(current, io.envOptOut), io)
  {
    hide Revoke, Rotate, Finish;
  }

  /** Settling on an identity writes or sees one, and does nothing else that others can see. */
  lemma TurningIsQuiet(o: Outcome, io: Io)
    requires Proceeds(io)
    ensures var n, t := Noticed(o, io), Turned(o, io);
      && n.log <= t.log && t.state.journal == n.state.journal && t.state.pendingRevocations == n.state.pendingRevocations
      && (forall j :: |n.log| <= j < |t.log| ==> t.log[j].IdentityWritten? || t.log[j].IdentitySeen?)
      && t.state.hadConsent == Some(!OptsOut(io.consent, io.envOptOut))
  {
    hide Revoke, Noticed;
    Reads(o, io);
  }

  /** An opt-out found by the first read: it is recorded under the identity in use; what is
      revoked is that identity, the one the consent file names and the one in the identity file,
      no more and no less; and nothing is sent.  While the revocation cannot be appended it stays
      pending and the call ends. */
  lemma FirstOptOut(o: Outcome, io: Io)
    requires Proceeds(io) && o.state.hadConsent != Some(false) && OptsOut(io.consent, io.envOptOut)
    ensures var r := Capture(o, io);
            var own := o.state.identity;
            var ids := {own, Named(io.consent, own)} + InFile(io.identity, Named(io.consent, own));
      && !AddsSent(o, r)
      && (!io.appendOk ==> r.log == o.log + [OptOut(own)] && r.state.pendingRevocations == Some(ids)
                           && r.state.hadConsent == o.state.hadConsent)
      && (io.appendOk ==> o.log + [OptOut(own), Appended(ids)] <= r.log && ids <= r.state.journal
                          && r.state.pendingRevocations.None? && r.state.hadConsent == Some(false))
  {
    hide Revoke, Rotate, Capture;
    Reads(o, io);
    InPhases(o, io);
    TurningIsQuiet(o, io);
    FirstNotice(o, io);
  }

  lemma FirstNotice(o: Outcome, io: Io)
    requires Proceeds(io)
    ensures var n := Noticed(o, io);
            var own := o.state.identity;
            var ids := {own, Named(io.consent, own)} + InFile(io.identity, Named(io.consent, own));
      if o.state.hadConsent != Some(false) && OptsOut(io.consent, io.envOptOut) then
        && n.state.hadConsent == o.state.hadConsent && n.state.sessionsDrawn > n.state.session == o.state.sessionsDrawn
        && if io.appendOk then n.log == o.log + [OptOut(own), Appended(ids)] && ids <= n.state.journal && n.state.pendingRevocations.None?
           else n.log == o.log + [OptOut(own)] && n.state.pendingRevocations == Some(ids)
      else
        && n.state == o.state.(pendingRevocations := n.state.pendingRevocations, journal := n.state.journal)
        && if o.state.pendingRevocations.None? then n.log == o.log && n.state.pendingRevocations.None?
           else if io.appendOk then n.log == o.log + [Appended(o.state.pendingRevocations.value)] && n.state.pendingRevocations.None?
           else n.log == o.log && n.state.pendingRevocations == o.state.pendingRevocations
  {
    Reads(o, io);
  }

  /** The call gets to the second read of consent: nothing is left to append. */
  ghost predicate GetsThrough(o: Outcome, io: Io) {
    Proceeds(io) && (io.appendOk || (o.state.pendingRevocations.None? && (o.state.hadConsent == Some(false) || !OptsOut(io.consent, io.envOptOut))))
  }

  lemma ThroughIff(o: Outcome, io: Io)
    requires Proceeds(io)
    ensures GetsThrough(o, io) <==> Noticed(o, io).state.pendingRevocations.None?
  {
    hide Noticed, InFile;
    FirstNotice(o, io);
  }

  /** An opt-out found by the second read, made while this call was at work: on top of the
      identities known before it revokes the one just settled on and whatever the identity file
      holds by now; the identity is replaced only once the journal took that. */
  lemma SecondOptOut(o: Outcome, io: Io)
    requires GetsThrough(o, io) && !OptsOut(io.consent, io.envOptOut)
    requires !io.latestConsent.ConsentUnreadable? && OptsOut(io.latestConsent, io.latestEnvOptOut)
    ensures var r, t := Capture(o, io), Turned(o, io);
            var named := Named(io.consent, o.state.identity);
            var ids := {o.state.identity, t.state.identity, named} + InFile(io.identity, named) + InFile(io.rereadIdentity, named);
      && r.log == t.log + [OptOut(t.state.identity)] + (if io.latestAppendOk then [Appended(ids)] else [])
                  + (if io.latestAppendOk && io.latestRewriteOk then [IdentityWritten(io.latestDraw)] else [])
      && r.state.hadConsent == Some(false) && r.state.session == t.state.sessionsDrawn
      && r.state.pendingRevocations == (if io.latestAppendOk then None else Some(ids))
      && (io.latestAppendOk && io.latestRewriteOk ==> r.state.localGeneration.None? && !r.state.rotationPending)
      && (!(io.latestAppendOk && io.latestRewriteOk) ==> r.state.localGeneration == Some(io.latestDraw) && r.state.rotationPending)
  {
    hide Revoke, Rotate, Noticed, Capture;
    Reads(o, io);
    InPhases(o, io);
    ThroughIff(o, io);
    TurningIsQuiet(o, io);
  }

  /** The call sends exactly when consent was given on both reads, both journal reads succeeded,
      nothing is left to append or to replace, there is a key, and the identity is not revoked;
      and then once, at the end, under the identity and session it settled on. */
  lemma SendsIff(o: Outcome, io: Io)
    ensures var r := Capture(o, io);
      && (AddsSent(o, r) <==>
            && GetsThrough(o, io) && !OptsOut(io.consent, io.envOptOut)
            && !io.latestConsent.ConsentUnreadable? && !OptsOut(io.latestConsent, io.latestEnvOptOut)
            && io.latestJournalReadable && io.hasApiKey
            && !r.state.rotationPending && r.state.identity !in r.state.journal)
      && (AddsSent(o, r) ==> Proceeds(io) && r.log == Turned(o, io).log + [Sent(r.state.identity, r.state.session)])
  {
    hide Revoke, Rotate, Noticed, Capture;
    if !Proceeds(io) {
      UnreadableDoesNothing(o, io);
    } else {
      Reads(o, io);
      InPhases(o, io);
      ThroughIff(o, io);
      TurningIsQuiet(o, io);
      NoticingIsQuiet(o, io);
      if AddsSent(o, Capture(o, io)) { assert GetsThrough(o, io); }
      var r, t := Capture(o, io), Turned(o, io);
      if r.log == t.log + [Sent(t.state.identity, t.state.session)] { assert r.log[|t.log|].Sent?; }
    }
  }

  lemma NoticingIsQuiet(o: Outcome, io: Io)
    requires Proceeds(io)
    ensures var n := Noticed(o, io);
      o.log <= n.log && forall j :: |o.log| <= j < |n.log| ==> n.log[j].OptOut? || n.log[j].Appended?
  {
    hide Noticed, InFile, Named;
    FirstNotice(o, io);
  }

  /** Opt-outs are noticed exactly when a readable consent says so, once: on the first read if it
      was not known before, on the second if the first still gave consent. */
  lemma NoticesIff(o: Outcome, io: Io)
    ensures AddsOptOut(o, Capture(o, io)) <==>
      && Proceeds(io)
      && if OptsOut(io.consent, io.envOptOut) then o.state.hadConsent != Some(false)
         else GetsThrough(o, io) && !io.latestConsent.ConsentUnreadable? && OptsOut(io.latestConsent, io.latestEnvOptOut)
  {
    hide Revoke, Rotate, Noticed, Capture, InFile, Named;
    var r := Capture(o, io);
    if !Proceeds(io) {
      UnreadableDoesNothing(o, io);
    } else {
      Reads(o, io);
      InPhases(o, io);
      ThroughIff(o, io);
      TurningIsQuiet(o, io);
      FirstNotice(o, io);
      var n, t := Noticed(o, io), Turned(o, io);
      if OptsOut(io.consent, io.envOptOut) && o.state.hadConsent != Some(false) {
        assert n.log[|o.log|].OptOut? && n.log <= r.log;
        assert r.log[|o.log|].OptOut?;
      } else if !OptsOut(io.consent, io.envOptOut) && GetsThrough(o, io) && !io.latestConsent.ConsentUnreadable?
                && OptsOut(io.latestConsent, io.latestEnvOptOut) {
        assert r.log[|t.log|].OptOut?;
      }
    }
  }

  /** Revocations that could not be appended hold back everything: until the append succeeds a
      call that notices no new opt-out changes nothing others can see. */
  lemma PendingHoldsBack(o: Outcome, io: Io)
    requires o.state.pendingRevocations.Some? && !io.appendOk
    requires o.state.hadConsent == Some(false) || !OptsOut(io.consent, io.envOptOut)
    ensures Capture(o, io).log == o.log && Capture(o, io).state.pendingRevocations == o.state.pendingRevocations
  {
    hide Revoke, Rotate, Noticed, Capture;
    if Proceeds(io) {
      InPhases(o, io);
      FirstNotice(o, io);
    } else {
      UnreadableDoesNothing(o, io);
    }
  }

  // ---- the identity ---------------------------------------------------------------------

  /** The identity a call would go on with: the one in the file if it is good; else the one this
      instance holds; else, with the file missing, the one the consent file names; with it
      unreadable, the same recovery identity every time; and a revoked one as it is. */
  ghost function Candidate(n: State, named: Identity, io: Io): Identity {
    match io.identity
    case IdentityFound(id) => if id !in n.journal then id else n.localGeneration.GetOr(id)
    case IdentityMissing => n.localGeneration.GetOr(named)
    case IdentityUnreadable => n.localGeneration.GetOr(n.recoveryGeneration.GetOr(io.recoveryDraw))
  }

  /** There is no consent file, or it is marked as standing for none. */
  ghost predicate Unconfigured(file: ConsentFile) {
    file.ConsentMissing? || (file.ConsentFound? && file.missingFlag)
  }

  /** A held identity has to be written to the file. */
  ghost predicate Held(n: State, named: Identity, io: Io) {
    && !(io.identity.IdentityFound? && io.identity.anonymousId !in n.journal)
    && (n.localGeneration.Some? || Candidate(n, named, io) in n.journal || io.identity.IdentityUnreadable?
        || (io.identity.IdentityMissing? && Unconfigured(io.consent)))
  }

  ghost predicate Settled(n: Outcome, t: Outcome, named: Identity, io: Io) {
    var candidate := Candidate(n.state, named, io);
    var good := io.identity.IdentityFound? && io.identity.anonymousId !in n.state.journal;
    var replaced := candidate in n.state.journal;
    var written := Held(n.state, named, io) && io.rewriteOk;
    && t.state.identity == (if replaced then io.replacementDraw else candidate)
    && t.state.session == (if t.state.identity == n.state.identity then n.state.session else n.state.sessionsDrawn)
    && t.log == n.log + (if good then [IdentitySeen(candidate)] else [])
                      + (if written then [IdentityWritten(t.state.identity)] else [])
    && (t.state.rotationPending <==> !good && !written && (n.state.rotationPending || replaced))
    && t.state.localGeneration == (if Held(n.state, named, io) && !io.rewriteOk then Some(t.state.identity) else None)
    && t.state.recoveryGeneration == (if good then None else if replaced then Some(io.replacementDraw)
                                      else if io.identity.IdentityUnreadable? && n.state.localGeneration.None? then Some(candidate)
                                      else n.state.recoveryGeneration)
  }

  /** Settling on an identity: a revoked candidate is replaced by a fresh one; the session changes
      exactly with the identity; an identity other than the file's is written, unless the file
      is missing while there is a consent file; and the rotation is over exactly when it was
      written or the file's was good, or none was under way. */
  lemma SettlesOn(o: Outcome, io: Io)
    requires GetsThrough(o, io)
    ensures Settled(Noticed(o, io), Turned(o, io), Named(io.consent, o.state.identity), io)
  {
    hide Revoke, Noticed, InFile, Settled, Rotate;
    ThroughIff(o, io);
    Reads(o, io);
    var n, current := Noticed(o, io), LoadState(io.consent, o.state.identity).value;
    var enabled := ConsentEnabled(current, io.envOptOut);
    assert current.missing <==> Unconfigured(io.consent);
    match io.identity
    case IdentityFound(id) => FoundSettles(n, current, enabled, io);
    case IdentityMissing => MissingSettles(n, current, enabled, io);
    case IdentityUnreadable => UnreadableSettles(n, current, enabled, io);
  }

  lemma FoundSettles(n: Outcome, current: Consent, enabled: bool, io: Io)
    requires n.state.pendingRevocations.None? && io.identity.IdentityFound? && (current.missing <==> Unconfigured(io.consent))
    ensures Settled(n, Rotate(n, LoadAnonymousId(io.identity, current.anonymousId), current, enabled, io), current.anonymousId, io)
  {
  }

  lemma MissingSettles(n: Outcome, current: Consent, enabled: bool, io: Io)
    requires n.state.pendingRevocations.None? && io.identity.IdentityMissing? && (current.missing <==> Unconfigured(io.consent))
    ensures Settled(n, Rotate(n, LoadAnonymousId(io.identity, current.anonymousId), current, enabled, io), current.anonymousId, io)
  {
  }

  lemma UnreadableSettles(n: Outcome, current: Consent, enabled: bool, io: Io)
    requires n.state.pendingRevocations.None? && io.identity.IdentityUnreadable? && (current.missing <==> Unconfigured(io.consent))
    ensures Settled(n, Rotate(n, LoadAnonymousId(io.identity, current.anonymousId), current, enabled, io), current.anonymousId, io)
  {
    hide Unconfigured;
    var m := Recover(n, None, io.recoveryDraw);
    assert m.state.localGeneration.Some? && m.state.localGeneration.value == Candidate(n.state, current.anonymousId, io);
    assert Adopt(n, None, n.state.journal) == n;
  }

  /** A fresh machine, or one on which only telemetry files are missing: missing configuration is
      no opt-out, and the identity in use is kept, written and sent. */
  lemma MissingFilesAreNoOptOut(o: Outcome, io: Io)
    requires io.consent.ConsentMissing? && io.latestConsent.ConsentMissing? && !io.envOptOut && !io.latestEnvOptOut
    ensures !AddsOptOut(o, Capture(o, io))
    ensures io.journalReadable && io.latestJournalReadable && io.hasApiKey && io.identity.IdentityMissing?
            && o.state.pendingRevocations.None? && o.state.localGeneration.None? && !o.state.rotationPending
            && o.state.identity !in o.state.journal + io.othersFirst + io.othersLater ==>
      Capture(o, io).log == o.log + (if io.rewriteOk then [IdentityWritten(o.state.identity)] else [])
                            + [Sent(o.state.identity, o.state.session)]
  {
    NoticesIff(o, io);
    hide Adds;
  }

  /** While the identity file cannot be read, one recovery identity and one session last, whether
      or not writing it succeeds. */
  lemma UnreadableIdentityIsStable(o: Outcome, io: Io, next: Io)
    requires GetsThrough(o, io) && io.identity.IdentityUnreadable? && AddsSent(o, Capture(o, io))
    requires o.state.localGeneration.None? && o.state.hadConsent != Some(false)
    requires GetsThrough(Capture(o, io), next) && next.identity.IdentityUnreadable? && !OptsOut(next.consent, next.envOptOut)
    requires Capture(o, io).state.identity !in next.othersFirst
    ensures var r := Capture(o, io);
            var t := Turned(r, next);
      t.state.identity == r.state.identity && t.state.session == r.state.session
  {
    hide Capture, Noticed, Turned, AddsSent, InFile;
    SendsIff(o, io);
    FirstNotice(o, io);
    SettlesOn(o, io);
    SentKeeps(o, io);
    var r := Capture(o, io);
    FirstNotice(r, next);
    NoticedJournal(r, next);
    SettlesOn(r, next);
  }

  lemma NoticedJournal(o: Outcome, io: Io)
    requires Proceeds(io) && (o.state.hadConsent == Some(false) || !OptsOut(io.consent, io.envOptOut)) && o.state.pendingRevocations.None?
    ensures Noticed(o, io).state.journal == o.state.journal + io.othersFirst
  {
    Reads(o, io);
  }

  /** A call that sends leaves behind what it settled on. */
  lemma SentKeeps(o: Outcome, io: Io)
    requires AddsSent(o, Capture(o, io))
    ensures Proceeds(io)
    ensures var r, t := Capture(o, io), Turned(o, io);
      r.state == t.state.(journal := r.state.journal) && r.state.pendingRevocations.None?
  {
    hide Revoke, Rotate, Noticed, Capture;
    SendsIff(o, io);
    Reads(o, io);
    InPhases(o, io);
    ThroughIff(o, io);
    TurningIsQuiet(o, io);
  }
}
