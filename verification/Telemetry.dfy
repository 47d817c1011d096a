/** The consent and identity protocol of `createMcpTelemetry` (packages/mcp/src/telemetry.ts).

    One process keeps a handful of variables and shares three files with others: the consent
    file, the identity file and an append-only revocation journal.  Every read may fail or see
    anything, every write may fail; only the journal is assumed to grow.  `Capture` is one call
    of `capture` as a function of the process variables and of what the files answered; the
    externally visible effects are a log, and the promises are about every log of every run. */
module Telemetry {
  import opened Wrappers

  /** A non-blank `anonymousId`; a blank one makes its file unreadable (`isTelemetryState`). */
  type Identity = s: string | s != "" witness "0"

  datatype ConsentFile =
    | ConsentUnreadable
    | ConsentMissing
    | ConsentFound(anonymousId: Identity, disabled: bool, missingFlag: bool)

  datatype IdentityFile = IdentityUnreadable | IdentityMissing | IdentityFound(anonymousId: Identity)

  datatype Consent = Consent(anonymousId: Identity, disabled: bool, missing: bool)

  datatype Shared = Shared(anonymousId: Identity, missing: bool)

  /** What one call of `capture` gets to see, in the order it asks. */
  datatype Io = Io(
    consent: ConsentFile, envOptOut: bool,
    identity: IdentityFile,
    othersFirst: set<Identity>, journalReadable: bool,
    optOutDraw: Identity, appendOk: bool,
    recoveryDraw: Identity, replacementDraw: Identity, rewriteOk: bool,
    latestConsent: ConsentFile, latestEnvOptOut: bool,
    rereadIdentity: IdentityFile, latestDraw: Identity, latestAppendOk: bool, latestRewriteOk: bool,
    othersLater: set<Identity>, latestJournalReadable: bool,
    hasApiKey: bool)

  /** The variables of one instance, the number of session ids drawn, and the shared journal. */
  datatype State = State(
    identity: Identity,
    hadConsent: Option<bool>,
    localGeneration: Option<Identity>,
    rotationPending: bool,
    recoveryGeneration: Option<Identity>,
    pendingRevocations: Option<set<Identity>>,
    session: nat,
    sessionsDrawn: nat,
    journal: set<Identity>)

  /** The effects others can see, and the moments the promises speak about. */
  datatype Effect =
    | OptOut(identity: Identity)               // an opt-out is observed under `identity`
    | Appended(ids: set<Identity>)             // the journal took these revocations
    | IdentityWritten(identity: Identity)      // the identity file took a replacement
    | IdentitySeen(identity: Identity)         // the identity file holds an unrevoked identity
    | Sent(identity: Identity, session: nat)   // an event left the process

  datatype Outcome = Outcome(state: State, log: seq<Effect>)

  // ---- reading the files ----------------------------------------------------------------

  function LoadState(file: ConsentFile, fallback: Identity): Option<Consent> {
    match file
    case ConsentUnreadable => None
    case ConsentMissing => Some(Consent(fallback, false, true))
    case ConsentFound(id, disabled, flag) => Some(Consent(id, disabled, flag))
  }

  function LoadAnonymousId(file: IdentityFile, fallback: Identity): Option<Shared> {
    match file
    case IdentityUnreadable => None
    case IdentityMissing => Some(Shared(fallback, true))
    case IdentityFound(id) => Some(Shared(id, false))
  }

  predicate ConsentEnabled(c: Consent, envOptOut: bool) {
    !envOptOut && !c.disabled
  }

  function SharedIds(shared: Option<Shared>): set<Identity> {
    if shared.Some? then {shared.value.anonymousId} else {}
  }

  function Start(file: ConsentFile, draw: Identity, otherDraw: Identity, journal: set<Identity>): State {
    var identity := match LoadState(file, draw)
      case Some(c) => c.anonymousId
      case None => otherDraw;
    State(identity, None, None, false, None, None, 0, 1, journal)
  }

  // ---- the phases of one capture --------------------------------------------------------

  /** An opt-out is observed: remember what to revoke, draw a new generation and session. */
  function Observe(o: Outcome, ids: set<Identity>, draw: Identity): Outcome {
    var s := o.state;
    Outcome(s.(pendingRevocations := Some(ids), localGeneration := Some(draw),
               recoveryGeneration := Some(draw), rotationPending := true,
               session := s.sessionsDrawn, sessionsDrawn := s.sessionsDrawn + 1),
            o.log + [OptOut(s.identity)])
  }

  /** Append what is pending; a failed append leaves it pending. */
  function Flush(o: Outcome, ok: bool): Outcome {
    var s := o.state;
    if s.pendingRevocations.Some? && ok then
      Outcome(s.(journal := s.journal + s.pendingRevocations.value, pendingRevocations := None),
              o.log + [Appended(s.pendingRevocations.value)])
    else o
  }

  predicate Unrevoked(shared: Option<Shared>, revoked: set<Identity>) {
    shared.Some? && !shared.value.missing && shared.value.anonymousId !in revoked
  }

  /** Another process's successfully persisted identity wins over local recovery. */
  function Adopt(o: Outcome, shared: Option<Shared>, revoked: set<Identity>): Outcome {
    if Unrevoked(shared, revoked) then
      Outcome(o.state.(rotationPending := false, localGeneration := None, recoveryGeneration := None),
              o.log + [IdentitySeen(shared.value.anonymousId)])
    else o
  }

  /** With no generation held and no identity readable, fall back on the recovery generation. */
  function Recover(o: Outcome, shared: Option<Shared>, draw: Identity): Outcome {
    var s := o.state;
    if s.localGeneration.None? && shared.None? then
      var recovery := s.recoveryGeneration.GetOr(draw);
      o.(state := s.(recoveryGeneration := Some(recovery), localGeneration := Some(recovery)))
    else o
  }

  /** The identity this call will use, and the state it leaves behind. */
  function Choose(o: Outcome, shared: Option<Shared>, current: Consent, revoked: set<Identity>, draw: Identity): Outcome
    requires o.state.localGeneration.Some? || shared.Some?
  {
    var s := o.state;
    var candidate := if s.localGeneration.Some? then s.localGeneration.value else shared.value.anonymousId;
    var replaced := candidate in revoked;
    var id := if replaced then draw else candidate;
    var s1 := if replaced then s.(localGeneration := Some(draw), recoveryGeneration := Some(draw), rotationPending := true) else s;
    var s2 := if id != s.identity then s1.(session := s1.sessionsDrawn, sessionsDrawn := s1.sessionsDrawn + 1) else s1;
    var s3 := if s2.localGeneration.None? && shared.Some? && shared.value.missing && current.missing
              then s2.(localGeneration := Some(id)) else s2;
    o.(state := s3.(identity := id))
  }

  /** Write a held generation to the identity file. */
  function Rewrite(o: Outcome, ok: bool): Outcome {
    var s := o.state;
    if s.localGeneration.Some? && ok then
      Outcome(s.(localGeneration := None, rotationPending := false),
              o.log + [IdentityWritten(s.localGeneration.value)])
    else o
  }

  /** The opt-out another process made while this call was rotating. */
  function LateOptOut(o: Outcome, ids: set<Identity>, io: Io): Outcome {
    var flushed := Flush(Observe(o, ids, io.latestDraw), io.latestAppendOk);
    if flushed.state.pendingRevocations.None? then Rewrite(flushed, io.latestRewriteOk) else flushed
  }

  /** Lines 310-337: the second consent check, the second journal check, the send. */
  function Finish(o: Outcome, previous: Identity, current: Consent, shared: Option<Shared>, consentEnabled: bool, io: Io): Outcome {
    var s := o.state;
    match LoadState(io.latestConsent, s.identity)
    case None => o
    case Some(latest) =>
      if !ConsentEnabled(latest, io.latestEnvOptOut) then
        var ids := {previous, s.identity, current.anonymousId} + SharedIds(shared)
                   + SharedIds(LoadAnonymousId(io.rereadIdentity, current.anonymousId));
        var late := if consentEnabled then LateOptOut(o, ids, io) else o;
        late.(state := late.state.(hadConsent := Some(false)))
      else
        var grown := o.(state := s.(journal := s.journal + io.othersLater));
        if io.latestJournalReadable && s.identity !in grown.state.journal
           && consentEnabled && !s.rotationPending && io.hasApiKey
        then grown.(log := o.log + [Sent(s.identity, s.session)])
        else grown
  }

  /** Lines 286-308: settle on an identity once nothing is waiting to be revoked. */
  function Rotate(o: Outcome, shared: Option<Shared>, current: Consent, enabled: bool, io: Io): Outcome {
    // The journal as read, plus what this call itself appended.
    var revoked := o.state.journal;
    var recovered := Recover(Adopt(o, shared, revoked), shared, io.recoveryDraw);
    var chosen := Rewrite(Choose(recovered, shared, current, revoked, io.replacementDraw), io.rewriteOk);
    chosen.(state := chosen.state.(hadConsent := Some(enabled)))
  }

  /** Lines 273-284: notice an opt-out, then append what is pending. */
  function Revoke(o: Outcome, current: Consent, shared: Option<Shared>, enabled: bool, io: Io): Outcome {
    var observed := if o.state.hadConsent != Some(false) && !enabled
                    then Observe(o, {o.state.identity, current.anonymousId} + SharedIds(shared), io.optOutDraw)
                    else o;
    Flush(observed, io.appendOk)
  }

  /** One call of `capture`, continuing the log so far. */
  function Capture(o: Outcome, io: Io): Outcome {
    match LoadState(io.consent, o.state.identity)
    case None => o
    case Some(current) =>
      var enabled := ConsentEnabled(current, io.envOptOut);
      var shared := LoadAnonymousId(io.identity, current.anonymousId);
      var grown := o.(state := o.state.(journal := o.state.journal + io.othersFirst));
      if !io.journalReadable then grown
      else
        var revoked := Revoke(grown, current, shared, enabled, io);
        if revoked.state.pendingRevocations.Some? then revoked
        else Finish(Rotate(revoked, shared, current, enabled, io), o.state.identity, current, shared, enabled, io)
  }

  /** A whole run: any number of captures, each with its own answers from the files. */
  function Run(s: State, ios: seq<Io>): Outcome
    decreases |ios|
  {
    if ios == [] then Outcome(s, [])
    else Capture(Run(s, ios[..|ios| - 1]), ios[|ios| - 1])
  }

  // ---- what a log says so far -----------------------------------------------------------

  /** The facts about a log that decide whether a further `Sent` is allowed. */
  datatype Summary = Summary(
    sent: set<(Identity, nat)>,       // identity and session of every event sent
    revoked: set<Identity>,           // every identity appended to the journal
    unappended: set<Identity>,        // identities opted out and not yet appended since
    awaiting: bool,                   // an opt-out with no identity written or seen since
    stale: set<nat>)                  // sessions sent before the latest opt-out

  ghost function Note(a: Summary, e: Effect): Summary {
    match e
    case OptOut(x) => a.(unappended := a.unappended + {x}, awaiting := true,
                         stale := a.stale + set p | p in a.sent :: p.1)
    case Appended(ids) => a.(revoked := a.revoked + ids, unappended := a.unappended - ids)
    case IdentityWritten(_) => a.(awaiting := false)
    case IdentitySeen(_) => a.(awaiting := false)
    case Sent(x, n) => a.(sent := a.sent + {(x, n)})
  }

  ghost function Summarize(log: seq<Effect>): Summary {
    if log == [] then Summary({}, {}, {}, false, {})
    else Note(Summarize(log[..|log| - 1]), log[|log| - 1])
  }

  ghost predicate MaySend(a: Summary, x: Identity, n: nat) {
    && x !in a.revoked
    && a.unappended == {}
    && !a.awaiting
    && n !in a.stale
    && forall p | p in a.sent && p.1 == n :: p.0 == x
  }

  ghost predicate Safe(log: seq<Effect>) {
    log == [] ||
    (Safe(log[..|log| - 1]) &&
     (log[|log| - 1].Sent? ==>
        MaySend(Summarize(log[..|log| - 1]), log[|log| - 1].identity, log[|log| - 1].session)))
  }

  lemma SnocLog(log: seq<Effect>, e: Effect)
    ensures Summarize(log + [e]) == Note(Summarize(log), e)
    ensures Safe(log + [e]) <==> Safe(log) && (e.Sent? ==> MaySend(Summarize(log), e.identity, e.session))
  {
    assert (log + [e])[..|log|] == log;
  }

  // ---- the invariant --------------------------------------------------------------------

  /** What the variables promise about a log whose tail is the current call's. */
  ghost predicate Inv(s: State, log: seq<Effect>) {
    var a := Summarize(log);
    && Safe(log)
    && (s.rotationPending ==> s.localGeneration.Some?)
    && (a.awaiting ==> s.rotationPending)
    && a.revoked <= s.journal
    && a.unappended <= s.pendingRevocations.GetOr({})
    && (s.hadConsent != Some(false) ==> a.unappended <= {s.identity})
    && s.session < s.sessionsDrawn
    && (forall p | p in a.sent :: p.1 < s.sessionsDrawn && (p.1 == s.session ==> p.0 == s.identity))
    && (forall n | n in a.stale :: n < s.sessionsDrawn && n != s.session)
  }

  ghost predicate Holds(o: Outcome) {
    Inv(o.state, o.log)
  }

  /** Observing an opt-out keeps the invariant when the revocations still cover every earlier
      unappended opt-out: they do, as each of those happened under this same identity. */
  lemma ObserveHolds(o: Outcome, ids: set<Identity>, draw: Identity)
    requires Holds(o) && o.state.identity in ids
    requires Summarize(o.log).unappended <= ids
    ensures Holds(Observe(o, ids, draw))
  {
    SnocLog(o.log, OptOut(o.state.identity));
  }

  lemma FlushHolds(o: Outcome, ok: bool)
    requires Holds(o)
    ensures Holds(Flush(o, ok))
  {
    if o.state.pendingRevocations.Some? && ok {
      SnocLog(o.log, Appended(o.state.pendingRevocations.value));
    }
  }

  lemma RevokeHolds(o: Outcome, current: Consent, shared: Option<Shared>, enabled: bool, io: Io)
    requires Holds(o)
    ensures Holds(Revoke(o, current, shared, enabled, io))
  {
    var ids := {o.state.identity, current.anonymousId} + SharedIds(shared);
    if o.state.hadConsent != Some(false) && !enabled {
      ObserveHolds(o, ids, io.optOutDraw);
      FlushHolds(Observe(o, ids, io.optOutDraw), io.appendOk);
    } else {
      FlushHolds(o, io.appendOk);
    }
  }

  lemma AdoptHolds(o: Outcome, shared: Option<Shared>, revoked: set<Identity>)
    requires Holds(o)
    ensures Holds(Adopt(o, shared, revoked))
  {
    if Unrevoked(shared, revoked) {
      SnocLog(o.log, IdentitySeen(shared.value.anonymousId));
    }
  }

  lemma ChooseHolds(o: Outcome, shared: Option<Shared>, current: Consent, revoked: set<Identity>, draw: Identity)
    requires Holds(o) && o.state.pendingRevocations.None?
    requires o.state.localGeneration.Some? || shared.Some?
    ensures Holds(Choose(o, shared, current, revoked, draw))
  {
  }

  lemma RewriteHolds(o: Outcome, ok: bool)
    requires Holds(o)
    ensures Holds(Rewrite(o, ok))
  {
    if o.state.localGeneration.Some? && ok {
      SnocLog(o.log, IdentityWritten(o.state.localGeneration.value));
    }
  }

  lemma RecoverHolds(o: Outcome, shared: Option<Shared>, draw: Identity)
    requires Holds(o)
    ensures Holds(Recover(o, shared, draw))
  {
  }

  lemma RotateHolds(o: Outcome, shared: Option<Shared>, current: Consent, enabled: bool, io: Io)
    requires Holds(o) && o.state.pendingRevocations.None?
    ensures Holds(Rotate(o, shared, current, enabled, io))
    ensures Rotate(o, shared, current, enabled, io).state.pendingRevocations.None?
  {
    AdoptHolds(o, shared, o.state.journal);
    RecoverHolds(Adopt(o, shared, o.state.journal), shared, io.recoveryDraw);
    var recovered := Recover(Adopt(o, shared, o.state.journal), shared, io.recoveryDraw);
    ChooseHolds(recovered, shared, current, o.state.journal, io.replacementDraw);
    RewriteHolds(Choose(recovered, shared, current, o.state.journal, io.replacementDraw), io.rewriteOk);
  }

  lemma FinishHolds(o: Outcome, previous: Identity, current: Consent, shared: Option<Shared>, enabled: bool, io: Io)
    requires Holds(o) && o.state.pendingRevocations.None?
    ensures Holds(Finish(o, previous, current, shared, enabled, io))
  {
    var s := o.state;
    match LoadState(io.latestConsent, s.identity)
    case None =>
    case Some(latest) =>
      if !ConsentEnabled(latest, io.latestEnvOptOut) {
        if enabled {
          var ids := {previous, s.identity, current.anonymousId} + SharedIds(shared)
                     + SharedIds(LoadAnonymousId(io.rereadIdentity, current.anonymousId));
          ObserveHolds(o, ids, io.latestDraw);
          FlushHolds(Observe(o, ids, io.latestDraw), io.latestAppendOk);
          RewriteHolds(Flush(Observe(o, ids, io.latestDraw), io.latestAppendOk), io.latestRewriteOk);
        }
      } else if Finish(o, previous, current, shared, enabled, io).log != o.log {
        SnocLog(o.log, Sent(s.identity, s.session));
      }
  }

  /** Every call of `capture`, whatever the files answer, keeps the invariant. */
  lemma CaptureHolds(o: Outcome, io: Io)
    requires Holds(o)
    ensures Holds(Capture(o, io))
  {
    var loaded := LoadState(io.consent, o.state.identity);
    if loaded.Some? && io.journalReadable {
      var current := loaded.value;
      var enabled := ConsentEnabled(current, io.envOptOut);
      var shared := LoadAnonymousId(io.identity, current.anonymousId);
      var grown := o.(state := o.state.(journal := o.state.journal + io.othersFirst));
      RevokeHolds(grown, current, shared, enabled, io);
      var revoked := Revoke(grown, current, shared, enabled, io);
      if revoked.state.pendingRevocations.None? {
        RotateHolds(revoked, shared, current, enabled, io);
        FinishHolds(Rotate(revoked, shared, current, enabled, io), o.state.identity, current, shared, enabled, io);
      }
    }
  }

  lemma {:induction false} RunHolds(s: State, ios: seq<Io>)
    requires Inv(s, [])
    ensures Holds(Run(s, ios))
    decreases |ios|
  {
    if ios != [] {
      RunHolds(s, ios[..|ios| - 1]);
      CaptureHolds(Run(s, ios[..|ios| - 1]), ios[|ios| - 1]);
    }
  }

  // ---- reading the promises off a safe log ----------------------------------------------

  predicate Replaced(e: Effect) {
    e.IdentityWritten? || e.IdentitySeen?
  }

  /** What a summary remembers of the effect at position `i`. */
  lemma {:induction false} Remembered(log: seq<Effect>, i: nat)
    requires i < |log|
    ensures log[i].Sent? ==> (log[i].identity, log[i].session) in Summarize(log).sent
    ensures log[i].Appended? ==> log[i].ids <= Summarize(log).revoked
    ensures log[i].OptOut? ==>
              (log[i].identity in Summarize(log).unappended
               || exists k :: i < k < |log| && log[k].Appended? && log[i].identity in log[k].ids)
    ensures log[i].OptOut? ==> Summarize(log).awaiting || exists k :: i < k < |log| && Replaced(log[k])
    ensures log[i].OptOut? ==> forall h :: 0 <= h < i && log[h].Sent? ==> log[h].session in Summarize(log).stale
  {
    var n := |log| - 1;
    var init := log[..n];
    if i < n {
      Remembered(init, i);
      assert forall k :: 0 <= k < n ==> init[k] == log[k];
    } else if log[i].OptOut? {
      forall h | 0 <= h < i && log[h].Sent? ensures log[h].session in Summarize(log).stale {
        Remembered(init, h);
        assert (init[h].identity, init[h].session) in Summarize(init).sent;
      }
    }
  }

  lemma {:induction false} SafePrefix(log: seq<Effect>, j: nat)
    requires Safe(log) && j < |log|
    ensures Safe(log[..j])
    ensures log[j].Sent? ==> MaySend(Summarize(log[..j]), log[j].identity, log[j].session)
  {
    if j < |log| - 1 {
      SafePrefix(log[..|log| - 1], j);
      assert log[..|log| - 1][..j] == log[..j];
    }
  }

  /** An opt-out observed under identity X is final.  In every run, every later event carries
      another identity and a session never sent before the opt-out; and between the two the
      journal took X's revocation and the identity file was replaced or seen to hold an
      unrevoked identity. */
  lemma OptOutIsFinal(file: ConsentFile, draw: Identity, otherDraw: Identity, journal: set<Identity>, ios: seq<Io>, i: nat, j: nat)
    requires var log := Run(Start(file, draw, otherDraw, journal), ios).log;
             i < j < |log| && log[i].OptOut? && log[j].Sent?
    ensures var log := Run(Start(file, draw, otherDraw, journal), ios).log;
            && log[j].identity != log[i].identity
            && (forall h :: 0 <= h < i && log[h].Sent? ==> log[h].session != log[j].session)
            && (exists k :: i < k < j && log[k].Appended? && log[i].identity in log[k].ids)
            && (exists k :: i < k < j && Replaced(log[k]))
  {
    var s := Start(file, draw, otherDraw, journal);
    var log := Run(s, ios).log;
    RunHolds(s, ios);
    SafePrefix(log, j);
    var before := log[..j];
    Remembered(before, i);
    var k :| i < k < j && before[k].Appended? && before[i].identity in before[k].ids;
    Remembered(before, k);
    assert log[k] == before[k];
    var r :| i < r < j && Replaced(before[r]);
    assert Replaced(log[r]);
    forall h | 0 <= h < i && log[h].Sent? ensures log[h].session != log[j].session {
      assert before[h].session in Summarize(before).stale;
    }
  }

  /** Whatever this process put into the journal, it never sends again. */
  lemma RevokedIsNeverSent(file: ConsentFile, draw: Identity, otherDraw: Identity, journal: set<Identity>, ios: seq<Io>, i: nat, j: nat)
    requires var log := Run(Start(file, draw, otherDraw, journal), ios).log;
             i < j < |log| && log[i].Appended? && log[j].Sent?
    ensures var log := Run(Start(file, draw, otherDraw, journal), ios).log;
            log[j].identity !in log[i].ids
  {
    var s := Start(file, draw, otherDraw, journal);
    var log := Run(s, ios).log;
    RunHolds(s, ios);
    SafePrefix(log, j);
    Remembered(log[..j], i);
  }

  /** What one call adds: the log and the journal only grow, and an event it sends carries an
      identity that the journal, as last read, does not revoke. */
  ghost predicate Extends(o: Outcome, r: Outcome) {
    && o.log <= r.log && o.state.journal <= r.state.journal
    && forall j :: |o.log| <= j < |r.log| && r.log[j].Sent? ==> r.log[j].identity !in r.state.journal
  }

  lemma RevokeExtends(o: Outcome, current: Consent, shared: Option<Shared>, enabled: bool, io: Io)
    ensures var r := Revoke(o, current, shared, enabled, io);
            Extends(o, r) && forall j :: |o.log| <= j < |r.log| ==> !r.log[j].Sent?
  {
  }

  lemma RotateExtends(o: Outcome, shared: Option<Shared>, current: Consent, enabled: bool, io: Io)
    ensures var r := Rotate(o, shared, current, enabled, io);
            Extends(o, r) && forall j :: |o.log| <= j < |r.log| ==> !r.log[j].Sent?
  {
  }

  lemma CaptureExtends(o: Outcome, io: Io)
    ensures Extends(o, Capture(o, io))
  {
    hide Revoke, Rotate;
    var loaded := LoadState(io.consent, o.state.identity);
    if loaded.Some? && io.journalReadable {
      var current := loaded.value;
      var enabled := ConsentEnabled(current, io.envOptOut);
      var shared := LoadAnonymousId(io.identity, current.anonymousId);
      var grown := o.(state := o.state.(journal := o.state.journal + io.othersFirst));
      RevokeExtends(grown, current, shared, enabled, io);
      RotateExtends(Revoke(grown, current, shared, enabled, io), shared, current, enabled, io);
    }
  }

  lemma {:induction false} RunExtends(s: State, ios: seq<Io>, k: nat)
    requires k <= |ios|
    ensures var early, late := Run(s, ios[..k]), Run(s, ios);
      && early.log <= late.log && early.state.journal <= late.state.journal
      && forall j :: |early.log| <= j < |late.log| && late.log[j].Sent? ==> late.log[j].identity !in early.state.journal
    decreases |ios|
  {
    hide Capture;
    if k == |ios| {
      assert ios[..k] == ios;
    } else {
      var before := ios[..|ios| - 1];
      RunExtends(s, before, k);
      assert before[..k] == ios[..k];
      CaptureExtends(Run(s, before), ios[|ios| - 1]);
    }
  }

  /** An identity that any process revoked, once this one has read the journal, is never sent by
      it again: after `k` calls of a run, no later event carries an identity in the journal as it
      was then known. */
  lemma JournalIsHonoured(s: State, ios: seq<Io>, k: nat, j: nat)
    requires k <= |ios| && |Run(s, ios[..k]).log| <= j < |Run(s, ios).log| && Run(s, ios).log[j].Sent?
    ensures Run(s, ios).log[j].identity !in Run(s, ios[..k]).state.journal
  {
    RunExtends(s, ios, k);
  }

  /** No session id is ever sent with two identities. */
  lemma SessionHasOneIdentity(file: ConsentFile, draw: Identity, otherDraw: Identity, journal: set<Identity>, ios: seq<Io>, i: nat, j: nat)
    requires var log := Run(Start(file, draw, otherDraw, journal), ios).log;
             i < j < |log| && log[i].Sent? && log[j].Sent? && log[i].session == log[j].session
    ensures var log := Run(Start(file, draw, otherDraw, journal), ios).log;
            log[i].identity == log[j].identity
  {
    var s := Start(file, draw, otherDraw, journal);
    var log := Run(s, ios).log;
    RunHolds(s, ios);
    SafePrefix(log, j);
    Remembered(log[..j], i);
    assert (log[..j][i].identity, log[..j][i].session) in Summarize(log[..j]).sent;
  }

  // ---- what counts as an observed opt-out -----------------------------------------------

  /** The call reads an opt-out that this instance has not yet acted on. */
  predicate ReadsOptOut(s: State, io: Io) {
    var loaded := LoadState(io.consent, s.identity);
    s.hadConsent != Some(false) && loaded.Some? && !ConsentEnabled(loaded.value, io.envOptOut)
  }

  /** An opt-out that is read is recorded exactly when the revocation journal is readable in the
      same call: with an unreadable journal the call returns before looking at the consent it
      has just loaded, and the instance forgets the opt-out. */
  lemma OptOutIsRecordedIff(o: Outcome, io: Io)
    requires ReadsOptOut(o.state, io)
    ensures io.journalReadable <==> o.log + [OptOut(o.state.identity)] <= Capture(o, io).log
    ensures !io.journalReadable ==>
              Capture(o, io) == o.(state := o.state.(journal := o.state.journal + io.othersFirst))
  {
  }

  const FORGETFUL_IO := Io(
    ConsentFound("alice", true, false), false, IdentityFound("alice"), {}, false, "n1", true, "n2", "n3", true,
    ConsentFound("alice", true, false), false, IdentityFound("alice"), "n4", true, true, {}, true, true)

  const RESUMED_IO := Io(
    ConsentFound("alice", false, false), false, IdentityFound("alice"), {}, true, "n1", true, "n2", "n3", true,
    ConsentFound("alice", false, false), false, IdentityFound("alice"), "n4", true, true, {}, true, true)

  /** The forgotten opt-out in a run: consent is withdrawn while the journal cannot be read,
      granted again, and the old identity and session are used again. */
  lemma ForgottenOptOut()
    ensures var s := Start(RESUMED_IO.consent, "n0", "n9", {});
            ReadsOptOut(Run(s, [RESUMED_IO]).state, FORGETFUL_IO)
            && Run(s, [RESUMED_IO, FORGETFUL_IO, RESUMED_IO]).log
               == [IdentitySeen("alice"), Sent("alice", 0), IdentitySeen("alice"), Sent("alice", 0)]
  {
    var s := Start(RESUMED_IO.consent, "n0", "n9", {});
    var ios := [RESUMED_IO, FORGETFUL_IO, RESUMED_IO];
    var one := Capture(Outcome(s, []), RESUMED_IO);
    assert ios[..2][..1] == [RESUMED_IO] && [RESUMED_IO][..0] == [];
    assert Run(s, [RESUMED_IO]) == one;
    assert one.log == [IdentitySeen("alice"), Sent("alice", 0)];
    assert one.state == s.(hadConsent := Some(true));
    assert Run(s, ios[..2]) == Capture(one, FORGETFUL_IO) == one;
  }

  /** Nothing above holds by sending nothing: an instance with nothing pending, consent given on
      both reads, the identity file holding an identity no journal read revokes, and a key sends
      exactly one event, under the shared identity, keeping its session iff the identity stayed. */
  lemma SettledCaptureSends(o: Outcome, io: Io, id: Identity)
    requires o.state.pendingRevocations.None?
    requires io.consent.ConsentFound? && !io.consent.disabled && !io.envOptOut
    requires io.latestConsent.ConsentFound? && !io.latestConsent.disabled && !io.latestEnvOptOut
    requires io.identity == IdentityFound(id) && id !in o.state.journal + io.othersFirst + io.othersLater
    requires io.journalReadable && io.latestJournalReadable && io.hasApiKey
    ensures var r := Capture(o, io);
            var session := if id == o.state.identity then o.state.session else o.state.sessionsDrawn;
            && r.log == o.log + [IdentitySeen(id), Sent(id, session)]
            && r.state.identity == id && r.state.session == session
            && r.state.hadConsent == Some(true) && !r.state.rotationPending && r.state.localGeneration.None?
  {
  }

  // ---- the instance ---------------------------------------------------------------------

  /** `createMcpTelemetry`: the closure's variables, updated line by line. */
  class McpTelemetry {
    var anonymousId: Identity
    var hadConsent: Option<bool>
    var localGeneration: Option<Identity>
    var rotationPending: bool
    var recoveryGeneration: Option<Identity>
    var pendingRevocations: Option<set<Identity>>
    var sessionId: nat
    var sessionsDrawn: nat
    /** The shared journal file and the trace of effects: the outside world. */
    var journal: set<Identity>
    var log: seq<Effect>

    ghost function View(): State
      reads this
    {
      State(anonymousId, hadConsent, localGeneration, rotationPending, recoveryGeneration,
            pendingRevocations, sessionId, sessionsDrawn, journal)
    }

    /** Every instance reached by its constructor and captures satisfies this. */
    ghost predicate Valid()
      reads this
    {
      Inv(View(), log)
    }

    constructor (file: ConsentFile, draw: Identity, otherDraw: Identity, journal: set<Identity>)
      ensures View() == Start(file, draw, otherDraw, journal) && log == [] && Valid()
    {
      var state := LoadState(file, draw);
      anonymousId := if state.Some? then state.value.anonymousId else otherDraw;
      hadConsent, localGeneration, rotationPending := None, None, false;
      recoveryGeneration, pendingRevocations := None, None;
      sessionId, sessionsDrawn := 0, 1;
      this.journal, log := journal, [];
    }

    method DrawSession()
      modifies this`sessionId, this`sessionsDrawn
      ensures sessionId == old(sessionsDrawn) && sessionsDrawn == old(sessionsDrawn) + 1
    {
      sessionId := sessionsDrawn;
      sessionsDrawn := sessionsDrawn + 1;
    }

    method PersistRevokedIdentities(ids: set<Identity>, ok: bool)
      modifies this`journal, this`log
      ensures ok ==> journal == old(journal) + ids && log == old(log) + [Appended(ids)]
      ensures !ok ==> journal == old(journal) && log == old(log)
    {
      if ok {
        journal := journal + ids;
        log := log + [Appended(ids)];
      }
    }

    method PersistAnonymousId(id: Identity, ok: bool)
      modifies this`log
      ensures log == if ok then old(log) + [IdentityWritten(id)] else old(log)
    {
      if ok { log := log + [IdentityWritten(id)]; }
    }

    method ObserveOptOut(ids: set<Identity>, draw: Identity)
      modifies this
      ensures Outcome(View(), log) == Observe(Outcome(old(View()), old(log)), ids, draw)
    {
      log := log + [OptOut(anonymousId)];
      pendingRevocations := Some(ids);
      localGeneration := Some(draw);
      recoveryGeneration := localGeneration;
      rotationPending := true;
      DrawSession();
    }

    /** `capture`: does exactly what the model says, and so keeps every promise about the log. */
    method CaptureEvent(io: Io)
      requires Valid()
      modifies this
      ensures Outcome(View(), log) == Capture(Outcome(old(View()), old(log)), io)
      ensures Valid()
    {
      ghost var o := Outcome(View(), log);
      CaptureUnchecked(io);
      CaptureHolds(o, io);
    }

    method CaptureUnchecked(io: Io)
      modifies this
      ensures Outcome(View(), log) == Capture(Outcome(old(View()), old(log)), io)
    {
      var loaded := LoadState(io.consent, anonymousId);
      if loaded.None? { return; }
      var current := loaded.value;
      var previousAnonymousId := anonymousId;
      var consentEnabled := ConsentEnabled(current, io.envOptOut);
      var shared := LoadAnonymousId(io.identity, current.anonymousId);
      journal := journal + io.othersFirst;
      if !io.journalReadable { return; }
      RevokeOptedOut(current, shared, consentEnabled, io);
      if pendingRevocations.Some? { return; }
      RotateIdentity(shared, current, consentEnabled, io);
      FinishCapture(previousAnonymousId, current, shared, consentEnabled, io);
    }

    method RevokeOptedOut(current: Consent, shared: Option<Shared>, consentEnabled: bool, io: Io)
      modifies this
      ensures Outcome(View(), log) == Revoke(Outcome(old(View()), old(log)), current, shared, consentEnabled, io)
    {
      if hadConsent != Some(false) && !consentEnabled {
        ObserveOptOut({anonymousId, current.anonymousId} + SharedIds(shared), io.optOutDraw);
      }
      if pendingRevocations.Some? {
        PersistRevokedIdentities(pendingRevocations.value, io.appendOk);
        if io.appendOk { pendingRevocations := None; }
      }
    }

    /** The middle of `capture`: adopt, recover or replace the identity, and write it. */
    method RotateIdentity(shared: Option<Shared>, current: Consent, consentEnabled: bool, io: Io)
      requires pendingRevocations.None?
      modifies this
      ensures Outcome(View(), log) == Rotate(Outcome(old(View()), old(log)), shared, current, consentEnabled, io)
      ensures pendingRevocations.None?
    {
      var revoked := journal;
      AdoptOrRecover(shared, io);
      ChooseIdentity(shared, current, revoked, io);
      RewriteIdentity(io.rewriteOk);
      hadConsent := Some(consentEnabled);
    }

    method AdoptOrRecover(shared: Option<Shared>, io: Io)
      modifies this
      ensures var o := Outcome(old(View()), old(log));
              Outcome(View(), log) == Recover(Adopt(o, shared, old(journal)), shared, io.recoveryDraw)
    {
      if Unrevoked(shared, journal) {
        rotationPending := false;
        localGeneration := None;
        recoveryGeneration := None;
        log := log + [IdentitySeen(shared.value.anonymousId)];
      }
      if localGeneration.None? && shared.None? {
        if recoveryGeneration.None? { recoveryGeneration := Some(io.recoveryDraw); }
        localGeneration := recoveryGeneration;
      }
    }

    method ChooseIdentity(shared: Option<Shared>, current: Consent, revoked: set<Identity>, io: Io)
      requires localGeneration.Some? || shared.Some?
      modifies this
      ensures Outcome(View(), log) == Choose(Outcome(old(View()), old(log)), shared, current, revoked, io.replacementDraw)
    {
      var id := if localGeneration.Some? then localGeneration.value else shared.value.anonymousId;
      if id in revoked {
        id := io.replacementDraw;
        localGeneration := Some(id);
        recoveryGeneration := Some(id);
        rotationPending := true;
      }
      if id != anonymousId { DrawSession(); }
      if localGeneration.None? && shared.Some? && shared.value.missing && current.missing {
        localGeneration := Some(id);
      }
      anonymousId := id;
    }

    method RewriteIdentity(ok: bool)
      modifies this
      ensures Outcome(View(), log) == Rewrite(Outcome(old(View()), old(log)), ok)
    {
      if localGeneration.Some? {
        PersistAnonymousId(localGeneration.value, ok);
        if ok {
          localGeneration := None;
          rotationPending := false;
        }
      }
    }

    /** An opt-out found by the second consent read: journal it at once, and only then replace the
        identity file. */
    method RevokeLate(ids: set<Identity>, io: Io)
      modifies this
      ensures Outcome(View(), log) == LateOptOut(Outcome(old(View()), old(log)), ids, io)
    {
      ObserveOptOut(ids, io.latestDraw);
      PersistRevokedIdentities(pendingRevocations.value, io.latestAppendOk);
      if io.latestAppendOk { pendingRevocations := None; }
      if pendingRevocations.None? { RewriteIdentity(io.latestRewriteOk); }
    }

    /** The second half of `capture`: recheck consent, recheck the journal, send. */
    method FinishCapture(previous: Identity, current: Consent, shared: Option<Shared>, consentEnabled: bool, io: Io)
      requires pendingRevocations.None? && hadConsent == Some(consentEnabled)
      modifies this
      ensures Outcome(View(), log) == Finish(Outcome(old(View()), old(log)), previous, current, shared, consentEnabled, io)
    {
      var latest := LoadState(io.latestConsent, anonymousId);
      if latest.None? { return; }
      if !ConsentEnabled(latest.value, io.latestEnvOptOut) {
        if hadConsent != Some(false) {
          var reread := LoadAnonymousId(io.rereadIdentity, current.anonymousId);
          RevokeLate({previous, anonymousId, current.anonymousId} + SharedIds(shared) + SharedIds(reread), io);
        }
        hadConsent := Some(false);
        return;
      }
      journal := journal + io.othersLater;
      if !io.latestJournalReadable || anonymousId in journal { return; }
      if !consentEnabled || rotationPending || !io.hasApiKey { return; }
      log := log + [Sent(anonymousId, sessionId)];
    }
  }
}
