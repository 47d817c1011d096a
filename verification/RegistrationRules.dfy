/** The rules of registration, stated on what the server answered: when a request is repeated and
    after how long, what a rate limit blocks, and that a granted token is kept. */
module RegistrationRules {
  import opened Wrappers
  import opened Strings
  import opened RetryLayers

  // ---- repeating a request --------------------------------------------------------------

  /** The server turned the request away at the door, in a body that says so. */
  ghost predicate TurnedAway(reply: Reply) {
    && reply.Response? && reply.status != 204 && reply.body.Envelope? && !reply.body.ok
    && (reply.body.code == Some("workspace_busy") || reply.body.code == Some("workspace_admission_unavailable"))
  }

  /** Repeating it can do no harm. */
  ghost predicate Harmless(req: Request) {
    req.verb in {GET, HEAD, OPTIONS, TRACE, PUT, DELETE} || req.keyed
  }

  /** The wait before the next attempt: what the server asks, at most five seconds, else 200 and
      then 400 milliseconds. */
  ghost function Pause(reply: Reply, attempt: nat): nat
    requires reply.Response?
  {
    match reply.retryAfter
    case None => if attempt == 0 then 200 else 400
    case Some(seconds) => if seconds >= 5 then 5_000 else seconds * 1000
  }

  lemma PauseIsDelay(reply: Reply, attempt: nat)
    requires reply.Response? && attempt < 2
    ensures RetryDelay(reply, BACKOFFS[attempt]) == Pause(reply, attempt)
  {
  }

  /** The request loop repeats a request exactly when the server turned it away, or failed on one
      that is harmless to repeat, and two attempts at most were made; and it waits as long as
      asked. Otherwise the answer is the last. */
  lemma RepeatsIff(env: Env, s: State, req: Request, attempt: nat)
    requires attempt <= 2
    ensures var t, n, reply := Perform(env, s, req, attempt).0, |s.log|, env.reply(|s.log|);
      && |t.log| > n && t.log[n] == Sent(req.subject, s.clock, reply)
      && (|t.log| > n + 1 <==>
            attempt < 2 && (TurnedAway(reply) || (Harmless(req) && reply.Response? && 500 <= reply.status <= 599)))
      && (|t.log| > n + 1 ==> |t.log| > n + 2 && t.log[n + 1] == Slept(Pause(reply, attempt))
                              && t.log[n + 2].Sent? && t.log[n + 2].subject == req.subject
                              && t.log[n + 2].at == s.clock + reply.took + Pause(reply, attempt) + env.lag(n + 1))
  {
    hide Perform, MayResend, RetryDelay, Pause;
    var reply := env.reply(|s.log|);
    var t := Send(env, s, req.subject);
    PerformStarts(env, s, req, attempt);
    PerformUnfolds(env, s, req, attempt);
    if reply.Response? && attempt < 2 { PauseIsDelay(reply, attempt); }
    match Judge(req, reply, attempt)
    case Done(_) =>
    case Again(ms) =>
      AgainIsHarmless(false, req, reply, attempt);
      var u := Sleep(env, t, ms);
      PerformStarts(env, u, req, attempt + 1);
      assert u.log[|s.log| + 1] == Slept(ms) && |u.log| == |s.log| + 2;
  }

  /** Without a repeat, the answer is reported as what it says: a payload that can be used, or an
      error with the status and, where the body says one, the code. */
  lemma LastIsReported(env: Env, s: State, req: Request, attempt: nat)
    requires attempt <= 2 && |Perform(env, s, req, attempt).0.log| == |s.log| + 1
    ensures var (t, outcome), reply := Perform(env, s, req, attempt), env.reply(|s.log|);
      && t == s.(clock := s.clock + reply.took, log := s.log + [Sent(req.subject, s.clock, reply)])
      && (reply.Lost? ==> outcome == Fail(Http))
      && (reply.Response? ==>
            && (reply.status == 204 ==> outcome == if req.acceptsNull then Data(None) else Fail(BadJson))
            && (reply.status != 204 ==> match reply.body
                case Unread => outcome == Fail(Http)
                case NotJson =>
                  if 400 <= reply.status <= 599
                  then outcome.Fail? && outcome.failure.Api? && outcome.failure.status == reply.status && outcome.failure.code == "invalid_response_body"
                  else outcome == Fail(BadJson)
                case Envelope(ok, code, payload) =>
                  if !ok
                  then outcome.Fail? && outcome.failure.Api? && outcome.failure.status == reply.status
                       && outcome.failure.code == (if code.Some? then code.value else "unknown_error")
                  else match payload
                       case Missing => outcome == Fail(BadResponse)
                       case Unusable => outcome == Fail(BadJson)
                       case Usable(token) => outcome == Data(Some(token))))
  {
    hide Perform, RetryDelay, RetryAfterMs, MayResend, Sends;
    var reply := env.reply(|s.log|);
    PerformUnfolds(env, s, req, attempt);
    match Judge(req, reply, attempt)
    case Done(_) =>
    case Again(ms) =>
      AgainIsHarmless(false, req, reply, attempt);
      PerformStarts(env, Sleep(env, Send(env, s, req.subject), ms), req, attempt + 1);
      assert false;
  }

  // ---- the token is kept ----------------------------------------------------------------

  /** A registration that succeeds leaves its token behind: the next one for the name, however it
      is padded, returns it and sends nothing, whatever the server would answer. */
  lemma GrantedIsCached(env: Env, s: State, raw: string, later: Env, again: string)
    requires Register(env, s, raw).1.Registered? && Trim(again) == Trim(raw)
    ensures var (t, r) := Register(env, s, raw); Register(later, t, again) == (t, r)
  {
    hide Trim, Perform, BlockRemaining;
  }

  /** So does the retry loop. */
  lemma {:induction false} RetriedIsCached(env: Env, s: State, raw: string, attempt: nat, later: Env, again: string)
    requires attempt < MAX_ATTEMPTS && Retry(env, s, raw, attempt).1.Token? && Trim(again) == Trim(raw)
    ensures var (t, r) := Retry(env, s, raw, attempt);
      Register(later, t, again) == (t, Registered(r.token))
    decreases MAX_ATTEMPTS - attempt
  {
    hide Trim, Register, RegRetryDelay;
    var (t, r) := Register(env, s, raw);
    if r.Registered? {
      GrantedIsCached(env, s, raw, later, again);
    } else {
      var (u, ms) := RegRetryDelay(t, raw, r.error);
      RetriedIsCached(env, Sleep(env, u, ms), raw, attempt + 1, later, again);
    }
  }

  /** A token seeded for a name is returned for it. */
  lemma SeededIsReturned(env: Env, s: State, name: string, token: string, again: string)
    requires name != "" && Trim(again) == name
    ensures var t := Step(env, s, Seeding(name, token)); Register(env, t, again) == (t, Registered(token))
  {
  }

  /** A cleared name has neither token nor cooldown, and no other name is touched. */
  lemma ClearedIsForgotten(env: Env, s: State, raw: string)
    requires Trim(raw) != ""
    ensures var t, name := Step(env, s, Invalidating(raw)), Trim(raw);
      && name !in t.tokens && name !in t.cooldowns
      && (forall n :: n != name ==> (n in t.tokens <==> n in s.tokens) && (n in t.cooldowns <==> n in s.cooldowns))
      && (forall n :: n in t.tokens ==> t.tokens[n] == s.tokens[n])
      && (forall n :: n in t.cooldowns ==> t.cooldowns[n] == s.cooldowns[n])
  {
  }

  /** Clearing on a token's digest clears exactly when the token held now has that digest: one
      granted in the meantime stays. */
  lemma ClearedOnMatchIff(env: Env, s: State, raw: string, expected: string)
    requires Trim(raw) != "" && Trim(expected) != ""
    ensures var name := Trim(raw); var t := Step(env, s, InvalidatingIf(raw, expected));
      if name in s.tokens && env.digest(s.tokens[name]) == Lower(Trim(expected))
      then t == Step(env, s, Invalidating(raw)) && InvalidateIf(env, s, raw, expected).1
      else t == s && !InvalidateIf(env, s, raw, expected).1
  {
    assert |Lower(Trim(expected))| == |Trim(expected)|;
  }

  // ---- nothing is asked twice -----------------------------------------------------------

  ghost predicate GrantedAt(log: seq<Event>, i: int) {
    0 <= i < |log| && log[i].Sent? && exists token :: Grants(log[i].reply, token)
  }

  /** A name granted at `i` has a token, unless it was cleared since. */
  ghost predicate KeptAt(s: State, i: nat) {
    GrantedAt(s.log, i) ==> s.log[i].subject in s.tokens || ClearedBetween(s.log, i, |s.log|, s.log[i].subject)
  }

  /** Nothing is sent for a name between an answer that granted its token and its clearing. */
  ghost predicate AsksOnce(log: seq<Event>) {
    forall i, j :: 0 <= i < j < |log| && GrantedAt(log, i) && log[j].Sent? && log[j].subject == log[i].subject ==>
      ClearedBetween(log, i, j, log[i].subject)
  }

  ghost predicate Kept(s: State) {
    (forall i :: 0 <= i < |s.log| ==> KeptAt(s, i)) && AsksOnce(s.log)
  }

  lemma SameGrant(a: seq<Event>, b: seq<Event>, i: nat)
    requires i < |a| && i < |b| && a[i] == b[i]
    ensures GrantedAt(a, i) <==> GrantedAt(b, i)
  {
  }

  /** An event that grants nothing itself and asks only for a name without a token. */
  lemma EventKeeps(s: State, t: State, e: Event)
    requires Kept(s) && t.log == s.log + [e]
    requires e.Sent? ==> e.subject !in s.tokens && forall token :: !Grants(e.reply, token)
    requires forall n :: n in s.tokens ==> n in t.tokens || e == Cleared(n)
    ensures Kept(t)
  {
    hide Grants, ClearedBetween;
    AsksOnceMore(s, e);
    forall i | 0 <= i < |t.log| ensures KeptAt(t, i) {
      if i < |s.log| {
        assert KeptAt(s, i);
        SameGrant(s.log, t.log, i);
        if GrantedAt(s.log, i) { ClearedStays(s.log, e, i, |s.log|, s.log[i].subject); }
      }
    }
  }

  lemma AsksOnceMore(s: State, e: Event)
    requires Kept(s) && (e.Sent? ==> e.subject !in s.tokens)
    ensures AsksOnce(s.log + [e])
  {
    hide Grants, ClearedBetween;
    var log := s.log + [e];
    forall i, j | 0 <= i < j < |log| && GrantedAt(log, i) && log[j].Sent? && log[j].subject == log[i].subject
      ensures ClearedBetween(log, i, j, log[i].subject)
    {
      assert GrantedAt(s.log, i) && KeptAt(s, i);
      assert j <= |s.log|;
      ClearedStays(s.log, e, i, j, log[i].subject);
    }
  }

  /** The request loop asks only for a name without a token; only its last answer can grant one. */
  lemma {:induction false} PerformAsksOnce(env: Env, s: State, name: string, attempt: nat)
    requires attempt <= LAST && Kept(s) && name !in s.tokens
    ensures var (t, outcome) := Perform(env, s, RegistrationRequest(name), attempt);
      && t.tokens == s.tokens && AsksOnce(t.log)
      && (forall i :: 0 <= i < |t.log| - 1 ==> KeptAt(t, i))
      && |t.log| > 0 && t.log[|t.log| - 1].Sent? && t.log[|t.log| - 1].subject == name
      && (GrantedAt(t.log, |t.log| - 1) ==> outcome.Data? && Trim(outcome.token.GetOr("")) != "")
    decreases LAST - attempt
  {
    hide Kept, KeptAt, AsksOnce, Judge, Grants, Perform, Trim;
    var req, reply := RegistrationRequest(name), env.reply(|s.log|);
    var t, e := Send(env, s, name), Sent(name, s.clock, env.reply(|s.log|));
    PerformUnfolds(env, s, req, attempt);
    GrantEnds(req, reply, attempt);
    match Judge(req, reply, attempt)
    case Done(outcome) =>
      AsksOnceMore(s, e);
      OthersKept(s, t, e);
      assert GrantedAt(t.log, |t.log| - 1) <==> exists token :: Grants(reply, token);
    case Again(ms) =>
      AgainIsHarmless(false, req, reply, attempt);
      EventKeeps(s, t, e);
      EventKeeps(t, Sleep(env, t, ms), Slept(ms));
      PerformAsksOnce(env, Sleep(env, t, ms), name, attempt + 1);
  }

  lemma OthersKept(s: State, t: State, e: Event)
    requires Kept(s) && t.log == s.log + [e] && t.tokens == s.tokens
    ensures forall i :: 0 <= i < |t.log| - 1 ==> KeptAt(t, i)
  {
    hide Grants, ClearedBetween;
    forall i | 0 <= i < |t.log| - 1 ensures KeptAt(t, i) {
      assert KeptAt(s, i);
      SameGrant(s.log, t.log, i);
      if GrantedAt(s.log, i) { ClearedStays(s.log, e, i, |s.log|, s.log[i].subject); }
    }
  }

  /** A granting answer ends the loop with the token. */
  lemma GrantEnds(req: Request, reply: Reply, attempt: nat)
    requires attempt <= LAST && !Retryable(req)
    ensures forall token :: Grants(reply, token) ==> Judge(req, reply, attempt) == Done(Data(Some(token))) && Trim(token) != ""
  {
    hide Trim;
  }

  lemma ConcludeKeeps(s: State, name: string, outcome: Outcome)
    requires AsksOnce(s.log) && |s.log| > 0 && s.log[|s.log| - 1].Sent? && s.log[|s.log| - 1].subject == name
    requires forall i :: 0 <= i < |s.log| - 1 ==> KeptAt(s, i)
    requires GrantedAt(s.log, |s.log| - 1) ==> outcome.Data? && Trim(outcome.token.GetOr("")) != ""
    ensures Kept(Conclude(s, name, outcome).0)
  {
    hide Grants, ClearedBetween, Trim, AsksOnce;
    var t := Conclude(s, name, outcome).0;
    if t.log == s.log {
      forall i | 0 <= i < |t.log| ensures KeptAt(t, i) { assert i < |s.log| - 1 ==> KeptAt(s, i); }
    } else {
      assert !GrantedAt(s.log, |s.log| - 1);
      forall i | 0 <= i < |s.log| ensures KeptAt(s, i) {}
      EventKeeps(s, t, t.log[|s.log|]);
    }
  }

  lemma RegisterAsksOnce(env: Env, s: State, raw: string)
    requires Kept(s)
    ensures Kept(Register(env, s, raw).0)
  {
    hide Kept, KeptAt, AsksOnce, Perform, Trim, Conclude, GrantedAt;
    TrimTwice(raw);
    var name := Trim(raw);
    var (t, remaining) := BlockRemaining(s, name);
    SameKept(s, t);
    if name !in t.tokens {
      PerformAsksOnce(env, t, name, 0);
      var (u, outcome) := Perform(env, t, RegistrationRequest(name), 0);
      ConcludeKeeps(u, name, outcome);
    }
  }

  lemma SameKept(s: State, t: State)
    requires Kept(s) && t.log == s.log && forall n :: n in s.tokens ==> n in t.tokens
    ensures Kept(t)
  {
    hide Grants, ClearedBetween, AsksOnce;
    forall i | 0 <= i < |t.log| ensures KeptAt(t, i) { assert KeptAt(s, i); }
  }

  lemma {:induction false} RetryAsksOnce(env: Env, s: State, raw: string, attempt: nat)
    requires attempt < MAX_ATTEMPTS && Kept(s)
    ensures Kept(Retry(env, s, raw, attempt).0)
    decreases MAX_ATTEMPTS - attempt
  {
    hide Kept, Register, Trim;
    RegisterAsksOnce(env, s, raw);
    var (t, r) := Register(env, s, raw);
    if r.Rejected? && RegRetryable(r.error) && attempt < MAX_ATTEMPTS - 1 {
      var (u, ms) := RegRetryDelay(t, raw, r.error);
      SameKept(t, u);
      EventKeeps(u, Sleep(env, u, ms), Slept(ms));
      RetryAsksOnce(env, Sleep(env, u, ms), raw, attempt + 1);
    }
  }

  lemma StepAsksOnce(env: Env, s: State, op: Op)
    requires Kept(s)
    ensures Kept(Step(env, s, op))
  {
    hide Kept, Register, Retry, Trim, Lower;
    var t := Step(env, s, op);
    match op
    case Registering(raw) => RegisterAsksOnce(env, s, raw);
    case Retrying(raw) => RetryAsksOnce(env, s, raw, 0);
    case Invalidating(raw) => EventKeeps(s, Forget(s, Trim(raw)), Cleared(Trim(raw)));
    case InvalidatingIf(raw, expected) => EventKeeps(s, Forget(s, Trim(raw)), Cleared(Trim(raw)));
    case _ => SameKept(s, t);
  }

  lemma {:induction false} RunAsksOnce(env: Env, ops: seq<Op>)
    ensures Kept(Run(env, ops))
  {
    hide Step, Kept;
    if ops != [] {
      RunAsksOnce(env, ops[..|ops| - 1]);
      StepAsksOnce(env, Run(env, ops[..|ops| - 1]), ops[|ops| - 1]);
    } else {
      assert Kept(FRESH) by { NothingGranted(); }
    }
  }

  lemma NothingGranted()
    ensures Kept(FRESH)
  {
  }

  /** On every run of one client, whatever the server answers: once an answer granted a name its
      token, nothing is sent for the name until it is cleared. */
  lemma GrantedNamesAreNotAskedAgain(env: Env, ops: seq<Op>)
    ensures AsksOnce(Run(env, ops).log)
  {
    RunAsksOnce(env, ops);
  }

  // ---- what a rate limit blocks ---------------------------------------------------------

  /** How long a rate limit holds: as long as the server says, at most five minutes, else one. */
  ghost function HoldTime(reply: Reply): nat
    requires reply.Response?
  {
    match reply.retryAfter
    case None => 60_000
    case Some(seconds) => if seconds >= 300 then 300_000 else seconds * 1000
  }

  /** A registration whose last answer was a rate limit blocks its name for exactly that long. */
  lemma RateLimitHolds(env: Env, s: State, raw: string)
    requires Capped(s)
    ensures var (t, r) := Register(env, s, raw);
      r.Rejected? && r.error.RateLimited? ==>
        && LastReply(t.log).Some? && LastReply(t.log).value.Response?
        && Trim(raw) in t.cooldowns && t.cooldowns[Trim(raw)] == t.clock + HoldTime(LastReply(t.log).value)
        && r.error.retryAfterSecs * 1000 == HoldTime(LastReply(t.log).value)
  {
    hide Trim, Perform, Judge, LastReply, Promise;
    var name := Trim(raw);
    TrimTwice(raw);
    var t := BlockRemaining(s, name).0;
    var req := RegistrationRequest(name);
    PerformReportsLast(env, t, req, 0);
    var (u, outcome) := Perform(env, t, req, 0);
    LimitSays(req, LastReply(u.log).value);
    ConcludeDecides(u, name, LastReply(u.log).value);
  }

  lemma LimitSays(req: Request, reply: Reply)
    ensures var v := Judge(req, reply, LAST);
      v.Done? && v.outcome.Fail? && v.outcome.failure.Api? ==>
        reply.Response? && Cooldown(v.outcome.failure.retryAfterMs) == HoldTime(reply)
  {
  }

  /** Until then registering the name fails at once, with the whole seconds left but at least
      one, and sends nothing; afterwards, and for names that are not limited, it may send. */
  lemma BlockedIff(env: Env, s: State, raw: string)
    requires Trim(raw) != "" && Trim(raw) !in s.tokens
    ensures var (t, r) := Register(env, s, raw);
            var name := Trim(raw);
      if name in s.cooldowns && s.clock < s.cooldowns[name]
      then t == s && var left := s.cooldowns[name] - s.clock;
           r == Rejected(Blocked(if left < 2_000 then 1 else left / 1000))
      else |t.log| > |s.log| && t.log[|s.log|].Sent?
  {
    hide Trim, Perform, Conclude;
    TrimTwice(raw);
    if !(Trim(raw) in s.cooldowns && s.clock < s.cooldowns[Trim(raw)]) {
      var t := BlockRemaining(s, Trim(raw)).0;
      PerformStarts(env, t, RegistrationRequest(Trim(raw)), 0);
      var (u, outcome) := Perform(env, t, RegistrationRequest(Trim(raw)), 0);
      ConcludeExtends(u, Trim(raw), outcome);
    }
  }

  lemma ConcludeExtends(s: State, name: string, outcome: Outcome)
    ensures s.log <= Conclude(s, name, outcome).0.log
  {
    hide Trim;
  }

  /** Between attempts the retry loop waits until the name is free again, or two seconds after a
      failed exchange. */
  lemma RetryWaits(s: State, raw: string, error: RegError)
    requires Trim(raw) != "" && RegRetryable(error)
    ensures var (t, ms) := RegRetryDelay(s, raw, error); var name := Trim(raw);
      && t.log == s.log && t.clock == s.clock && t.tokens == s.tokens
      && ms == if name in s.cooldowns && s.clock < s.cooldowns[name] then s.cooldowns[name] - s.clock
               else if error.Transport? then 2_000 else error.retryAfterSecs * 1000
  {
    hide Trim;
  }
}
