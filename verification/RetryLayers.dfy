/** The two retry layers of the Rust SDK: the request loop of packages/sdk-rust/src/client.rs
    and, around it, `retry_agent_registration` of packages/sdk-rust/src/registration.rs with the
    token and cooldown maps of one single-task client.  Times are milliseconds.  What the server
    answers, how long an exchange takes and how late a sleep ends are inputs. */
module RetryLayers {
  import opened Wrappers
  import opened Strings

  const BACKOFFS: seq<nat> := [200, 400, 800]
  const LAST: nat := 2
  const MAX_RETRY_AFTER: nat := 5_000
  const DEFAULT_COOLDOWN: nat := 60_000
  const MAX_COOLDOWN: nat := 300_000
  const DEFAULT_RETRY: nat := 2_000
  const MAX_ATTEMPTS: nat := 3

  // ---- requests and answers -------------------------------------------------------------

  datatype Verb = GET | HEAD | OPTIONS | TRACE | PUT | DELETE | POST | PATCH

  /** `subject` is the agent name the request is about; `acceptsNull` says whether the expected
      payload type can be read from `null`. */
  datatype Request = Request(verb: Verb, keyed: bool, subject: string, acceptsNull: bool)

  datatype Payload = Missing | Unusable | Usable(token: string)

  datatype Body = Unread | NotJson | Envelope(ok: bool, code: Option<string>, payload: Payload)

  /** What one send leads to: the exchange fails, or a response arrives.  `retryAfter` is the
      parsed header in seconds. */
  datatype Reply =
    | Lost(took: nat)
    | Response(took: nat, status: nat, retryAfter: Option<nat>, body: Body)

  datatype Failure = Http | BadJson | BadResponse | Api(code: string, status: nat, retryAfterMs: Option<nat>)

  datatype Outcome = Data(token: Option<string>) | Fail(failure: Failure)

  // ---- the client's state and its history ------------------------------------------------

  /** What happened, in order.  `Limited` marks a cooldown the client took up, `Cleared` an
      explicit invalidation of one name. */
  datatype Event =
    | Sent(subject: string, at: nat, reply: Reply)
    | Slept(ms: nat)
    | Limited(subject: string, until: nat)
    | Cleared(subject: string)

  datatype State = State(tokens: map<string, string>, cooldowns: map<string, nat>, clock: nat, log: seq<Event>)

  /** The environment, asked afresh at every position of the history. */
  datatype Env = Env(reply: nat -> Reply, lag: nat -> nat, digest: string -> string)

  function Send(env: Env, s: State, subject: string): State {
    var r := env.reply(|s.log|);
    s.(clock := s.clock + r.took, log := s.log + [Sent(subject, s.clock, r)])
  }

  function Sleep(env: Env, s: State, ms: nat): State {
    s.(clock := s.clock + ms + env.lag(|s.log|), log := s.log + [Slept(ms)])
  }

  // ---- the request loop (client.rs) ------------------------------------------------------

  predicate Retryable(req: Request) {
    req.verb in {GET, HEAD, OPTIONS, TRACE, PUT, DELETE} || req.keyed
  }

  predicate AdmissionDenial(code: string) {
    code in {"workspace_busy", "workspace_admission_unavailable"}
  }

  function Min(a: nat, b: nat): nat { if a < b then a else b }

  /** Seconds to milliseconds, saturating at 64 bits. */
  function RetryAfterMs(reply: Reply): Option<nat>
    requires reply.Response?
  {
    match reply.retryAfter
    case None => None
    case Some(seconds) => Some(Min(seconds * 1000, 0xFFFF_FFFF_FFFF_FFFF))
  }

  function RetryDelay(reply: Reply, fallback: nat): nat
    requires reply.Response?
  {
    match RetryAfterMs(reply)
    case None => fallback
    case Some(ms) => Min(ms, MAX_RETRY_AFTER)
  }

  datatype Verdict = Again(ms: nat) | Done(outcome: Outcome)

  /** What the loop does with the answer to one attempt. */
  function Judge(req: Request, reply: Reply, attempt: nat): Verdict
    requires attempt <= LAST
  {
    match reply
    case Lost(_) => Done(Fail(Http))
    case Response(_, status, _, body) =>
      if Retryable(req) && 500 <= status <= 599 && attempt < LAST then Again(RetryDelay(reply, BACKOFFS[attempt]))
      else if status == 204 then Done(if req.acceptsNull then Data(None) else Fail(BadJson))
      else
        match body
        case Unread => Done(Fail(Http))
        case NotJson =>
          Done(Fail(if 400 <= status <= 599 then Api("invalid_response_body", status, RetryAfterMs(reply)) else BadJson))
        case Envelope(ok, code, payload) =>
          if !ok then
            var c := code.GetOr("unknown_error");
            if AdmissionDenial(c) && attempt < LAST then Again(RetryDelay(reply, BACKOFFS[attempt]))
            else Done(Fail(Api(c, status, RetryAfterMs(reply))))
          else
            match payload
            case Missing => Done(Fail(BadResponse))
            case Unusable => Done(Fail(BadJson))
            case Usable(token) => Done(Data(Some(token)))
  }

  function Perform(env: Env, s: State, req: Request, attempt: nat): (State, Outcome)
    requires attempt <= LAST
    decreases LAST - attempt
  {
    var t := Send(env, s, req.subject);
    match Judge(req, env.reply(|s.log|), attempt)
    case Done(outcome) => (t, outcome)
    case Again(ms) => if attempt < LAST then Perform(env, Sleep(env, t, ms), req, attempt + 1) else (t, Fail(Http))
  }

  // ---- registration (registration.rs) ---------------------------------------------------

  datatype RegError =
    | InvalidAgentName
    | Blocked(retryAfterSecs: nat)
    | RateLimited(retryAfterSecs: nat)
    | ApiError(status: nat)
    | Transport
    | InvalidResponse
    | MissingToken
    | AlreadyExists

  datatype RegResult = Registered(token: string) | Rejected(error: RegError)

  function Cooldown(retryAfterMs: Option<nat>): nat {
    match retryAfterMs
    case None => DEFAULT_COOLDOWN
    case Some(ms) => Min(ms, MAX_COOLDOWN)
  }

  /** `registration_block_remaining`, which drops an expired cooldown. */
  function BlockRemaining(s: State, raw: string): (State, Option<nat>) {
    var name := Trim(raw);
    if name == "" || name !in s.cooldowns then (s, None)
    else if s.cooldowns[name] <= s.clock then (s.(cooldowns := s.cooldowns - {name}), None)
    else (s, Some(s.cooldowns[name] - s.clock))
  }

  function RegistrationRequest(name: string): Request {
    Request(POST, false, name, false)
  }

  function Conclude(s: State, name: string, outcome: Outcome): (State, RegResult) {
    match outcome
    case Data(token) =>
      var value := token.GetOr("");
      if Trim(value) == "" then (s, Rejected(MissingToken))
      else (s.(tokens := s.tokens[name := value], cooldowns := s.cooldowns - {name}), Registered(value))
    case Fail(Api(_, status, retryAfterMs)) =>
      if status == 409 then (s, Rejected(AlreadyExists))
      else if status == 429 then
        var until := s.clock + Cooldown(retryAfterMs);
        (s.(cooldowns := s.cooldowns[name := until], log := s.log + [Limited(name, until)]),
         Rejected(RateLimited(Cooldown(retryAfterMs) / 1000)))
      else (s, Rejected(ApiError(status)))
    case Fail(Http) => (s, Rejected(Transport))
    case Fail(_) => (s, Rejected(InvalidResponse))
  }

  function Register(env: Env, s: State, raw: string): (State, RegResult) {
    var name := Trim(raw);
    if name == "" then (s, Rejected(InvalidAgentName))
    else if name in s.tokens then (s, Registered(s.tokens[name]))
    else
      var (t, remaining) := BlockRemaining(s, name);
      if remaining.Some? then
        var secs := remaining.value / 1000;
        (t, Rejected(Blocked(if secs < 1 then 1 else secs)))
      else
        var (u, outcome) := Perform(env, t, RegistrationRequest(name), 0);
        Conclude(u, name, outcome)
  }

  predicate RegRetryable(error: RegError) {
    error.Blocked? || error.RateLimited? || error.Transport?
  }

  function RegRetryDelay(s: State, raw: string, error: RegError): (State, nat) {
    var (t, remaining) := BlockRemaining(s, raw);
    (t, if remaining.Some? then remaining.value
        else if error.Blocked? || error.RateLimited? then error.retryAfterSecs * 1000
        else DEFAULT_RETRY)
  }

  datatype RetryResult = Token(token: string) | Exhausted(error: RegError) | Fatal(error: RegError)

  /** `retry_agent_registration` from its attempt `attempt` on. */
  function Retry(env: Env, s: State, raw: string, attempt: nat): (State, RetryResult)
    requires attempt < MAX_ATTEMPTS
    decreases MAX_ATTEMPTS - attempt
  {
    var (t, r) := Register(env, s, raw);
    match r
    case Registered(token) => (t, Token(token))
    case Rejected(error) =>
      if !RegRetryable(error) then (t, Fatal(error))
      else if attempt == MAX_ATTEMPTS - 1 then (t, Exhausted(error))
      else
        var (u, ms) := RegRetryDelay(t, raw, error);
        Retry(env, Sleep(env, u, ms), raw, attempt + 1)
  }

  // ---- counting sends and sleeps --------------------------------------------------------

  ghost function Sends(log: seq<Event>): nat {
    if log == [] then 0 else Sends(log[..|log| - 1]) + if log[|log| - 1].Sent? then 1 else 0
  }

  ghost function SleptMs(log: seq<Event>): nat {
    if log == [] then 0 else SleptMs(log[..|log| - 1]) + if log[|log| - 1].Slept? then log[|log| - 1].ms else 0
  }

  /** The answer lost on the way: no response, or a body that never fully arrived. */
  ghost predicate ExchangeFailed(reply: Reply) {
    reply.Lost? || (reply.status != 204 && reply.body.Unread?)
  }

  ghost predicate Denied(reply: Reply) {
    && reply.Response? && reply.status != 204 && reply.body.Envelope? && !reply.body.ok
    && AdmissionDenial(reply.body.code.GetOr("unknown_error"))
  }

  ghost predicate Throttled(reply: Reply) {
    && reply.Response? && reply.status == 429
    && (reply.body.NotJson? || (reply.body.Envelope? && !reply.body.ok))
  }

  /** The answers after which a request may be sent again: in the request loop, an admission
      denial or, if repeating it is harmless, a server error; in the registration loop around
      it, also a failed exchange or a rate limit. */
  ghost predicate MayResend(registering: bool, req: Request, reply: Reply) {
    || Denied(reply)
    || (Retryable(req) && reply.Response? && 500 <= reply.status <= 599)
    || (registering && (ExchangeFailed(reply) || Throttled(reply)))
  }

  /** From `s` to `t` the history grew by at most so many sends and so many milliseconds of
      sleep, and each send but the last was followed up only where that is allowed; when
      `open`, so may the last be. */
  ghost predicate Promise(registering: bool, req: Request, s: State, t: State, sends: nat, ms: nat, open: bool) {
    && s.log <= t.log && s.clock <= t.clock
    && Sends(t.log) <= Sends(s.log) + sends
    && SleptMs(t.log) <= SleptMs(s.log) + ms
    && (forall i, j :: |s.log| <= i < j < |t.log| && t.log[i].Sent? && t.log[j].Sent? ==>
          MayResend(registering, req, t.log[i].reply))
    && (open ==> forall i :: |s.log| <= i < |t.log| && t.log[i].Sent? ==> MayResend(registering, req, t.log[i].reply))
  }

  lemma Chain(registering: bool, req: Request, s: State, t: State, u: State, a: nat, x: nat, b: nat, y: nat, open: bool)
    requires Promise(registering, req, s, t, a, x, true) && Promise(registering, req, t, u, b, y, open)
    ensures Promise(registering, req, s, u, a + b, x + y, open)
  {
    hide MayResend, Sends, SleptMs;
    assert forall i :: 0 <= i < |t.log| ==> u.log[i] == t.log[i];
  }

  lemma OneEvent(registering: bool, req: Request, s: State, t: State, e: Event)
    requires t.log == s.log + [e] && s.clock <= t.clock
    ensures Promise(registering, req, s, t, if e.Sent? then 1 else 0, if e.Slept? then e.ms else 0,
                    e.Sent? ==> MayResend(registering, req, e.reply))
    ensures Sends(t.log) == Sends(s.log) + if e.Sent? then 1 else 0
  {
    hide MayResend;
    assert t.log[..|t.log| - 1] == s.log;
  }

  /** The outcomes of a request that registration tries again. */
  ghost predicate TriedAgain(outcome: Outcome) {
    outcome.Fail? && (outcome.failure.Http? || (outcome.failure.Api? && outcome.failure.status == 429))
  }

  lemma AgainIsHarmless(registering: bool, req: Request, reply: Reply, attempt: nat)
    requires attempt <= LAST && Judge(req, reply, attempt).Again?
    ensures attempt < LAST && Judge(req, reply, attempt).ms <= MAX_RETRY_AFTER && MayResend(registering, req, reply)
  {
  }

  /** The request loop sends at most three times and sleeps at most ten seconds; it repeats a
      request only after an admission denial, or after a server error when the verb or an
      idempotency key makes that harmless. */
  lemma {:induction false} PerformIsBounded(env: Env, s: State, req: Request, attempt: nat, registering: bool)
    requires attempt <= LAST && (registering ==> !Retryable(req))
    ensures var (t, outcome) := Perform(env, s, req, attempt);
      && Promise(registering, req, s, t, 3 - attempt, (LAST - attempt) * MAX_RETRY_AFTER,
                 registering && TriedAgain(outcome))
      && Sends(t.log) > Sends(s.log)
      && t.tokens == s.tokens && t.cooldowns == s.cooldowns
    decreases LAST - attempt
  {
    hide Promise, Judge, MayResend, Sends, TriedAgain;
    var reply := env.reply(|s.log|);
    var t := Send(env, s, req.subject);
    OneEvent(registering, req, s, t, Sent(req.subject, s.clock, reply));
    match Judge(req, reply, attempt)
    case Done(outcome) =>
      SendIsBounded(env, s, req, attempt, registering);
    case Again(ms) =>
      AgainIsHarmless(registering, req, reply, attempt);
      var u := Sleep(env, t, ms);
      OneEvent(registering, req, t, u, Slept(ms));
      Chain(registering, req, s, t, u, 1, 0, 0, ms, true);
      PerformIsBounded(env, u, req, attempt + 1, registering);
      var (w, outcome) := Perform(env, u, req, attempt + 1);
      var open := registering && TriedAgain(outcome);
      Chain(registering, req, s, u, w, 1, ms, 3 - attempt - 1, (LAST - attempt - 1) * MAX_RETRY_AFTER, open);
      Loosen(registering, req, s, w, 3 - attempt, ms + (LAST - attempt - 1) * MAX_RETRY_AFTER, open,
             3 - attempt, (LAST - attempt) * MAX_RETRY_AFTER, open);
  }

  lemma Loosen(registering: bool, req: Request, s: State, t: State, a: nat, x: nat, open: bool, b: nat, y: nat, wide: bool)
    requires Promise(registering, req, s, t, a, x, open) && a <= b && x <= y && (wide ==> open)
    ensures Promise(registering, req, s, t, b, y, wide)
  {
    hide MayResend, Sends, SleptMs;
  }

  lemma SendIsBounded(env: Env, s: State, req: Request, attempt: nat, registering: bool)
    requires attempt <= LAST && (registering ==> !Retryable(req))
    requires Judge(req, env.reply(|s.log|), attempt).Done?
    ensures var outcome := Judge(req, env.reply(|s.log|), attempt).outcome;
      Promise(registering, req, s, Send(env, s, req.subject), 3 - attempt, (LAST - attempt) * MAX_RETRY_AFTER,
              registering && TriedAgain(outcome))
  {
    hide Promise;
    var reply := env.reply(|s.log|);
    var t := Send(env, s, req.subject);
    var outcome := Judge(req, reply, attempt).outcome;
    var open := registering && TriedAgain(outcome);
    OneEvent(registering, req, s, t, Sent(req.subject, s.clock, reply));
    assert open ==> MayResend(registering, req, reply);
    Loosen(registering, req, s, t, 1, 0, MayResend(registering, req, reply), 3 - attempt, (LAST - attempt) * MAX_RETRY_AFTER, open);
  }

  // ---- the registration loop ------------------------------------------------------------

  /** No cooldown lies further ahead than the longest one a client takes up. */
  ghost predicate Capped(s: State) {
    forall n :: n in s.cooldowns ==> s.cooldowns[n] <= s.clock + MAX_COOLDOWN
  }

  ghost predicate IsBlocked(s: State, raw: string) {
    Trim(raw) != "" && Trim(raw) in s.cooldowns && s.cooldowns[Trim(raw)] > s.clock
  }

  ghost function Asked(raw: string): Request {
    RegistrationRequest(Trim(raw))
  }

  ghost predicate Retried(r: RegResult) {
    r.Rejected? && RegRetryable(r.error)
  }

  lemma ConcludeIsBounded(s: State, name: string, outcome: Outcome)
    requires Capped(s)
    ensures var (t, r) := Conclude(s, name, outcome);
      && Promise(true, RegistrationRequest(name), s, t, 0, 0, true) && Sends(t.log) == Sends(s.log)
      && Capped(t) && (Retried(r) ==> TriedAgain(outcome) && !r.error.Blocked?)
      && (Retried(r) && r.error.RateLimited? ==> r.error.retryAfterSecs * 1000 <= MAX_COOLDOWN)
  {
    hide Promise, Sends, MayResend, Trim;
    var (t, r) := Conclude(s, name, outcome);
    Nothing(true, RegistrationRequest(name), s, t);
    if t.log != s.log { OneEvent(true, RegistrationRequest(name), s, t, t.log[|s.log|]); }
  }

  lemma Nothing(registering: bool, req: Request, s: State, t: State)
    ensures t.log == s.log && s.clock <= t.clock ==> Promise(registering, req, s, t, 0, 0, true)
  {
  }

  /** One registration: at most three sends and ten seconds of sleep. */
  lemma RegisterIsBounded(env: Env, s: State, raw: string)
    requires Capped(s)
    ensures var (t, r) := Register(env, s, raw);
      && Promise(true, Asked(raw), s, t, 3, 2 * MAX_RETRY_AFTER, Retried(r))
      && Capped(t)
      && (Retried(r) && (r.error.Blocked? || r.error.RateLimited?) ==> r.error.retryAfterSecs * 1000 <= MAX_COOLDOWN)
      && (Retried(r) ==> (r.error.Blocked? <==> IsBlocked(s, raw)))
      && (Retried(r) && !IsBlocked(s, raw) ==> Sends(t.log) > Sends(s.log))
  {
    hide Promise, Perform, Conclude, Sends, Trim;
    var name := Trim(raw);
    TrimTwice(raw);
    var (t, remaining) := BlockRemaining(s, name);
    var req := RegistrationRequest(name);
    Nothing(true, req, s, t);
    Loosen(true, req, s, t, 0, 0, true, 3, 2 * MAX_RETRY_AFTER, true);
    Nothing(true, req, s, s);
    Loosen(true, req, s, s, 0, 0, true, 3, 2 * MAX_RETRY_AFTER, false);
    PerformIsBounded(env, t, req, 0, true);
    var (u, outcome) := Perform(env, t, req, 0);
    Chain(true, req, s, t, u, 0, 0, 3, 2 * MAX_RETRY_AFTER, TriedAgain(outcome));
    CappedLater(true, req, t, u, 3, 2 * MAX_RETRY_AFTER, TriedAgain(outcome));
    ConcludeIsBounded(u, name, outcome);
    var (w, r) := Conclude(u, name, outcome);
    if TriedAgain(outcome) {
      Chain(true, req, s, u, w, 3, 2 * MAX_RETRY_AFTER, 0, 0, true);
      Loosen(true, req, s, w, 3, 2 * MAX_RETRY_AFTER, true, 3, 2 * MAX_RETRY_AFTER, false);
    } else {
      Settled(req, s, u, outcome);
    }
  }

  lemma CappedLater(registering: bool, req: Request, s: State, t: State, a: nat, x: nat, open: bool)
    requires Capped(s) && t.cooldowns == s.cooldowns && Promise(registering, req, s, t, a, x, open)
    ensures Capped(t)
  {
  }

  lemma Settled(req: Request, s: State, u: State, outcome: Outcome)
    requires !TriedAgain(outcome) && Promise(true, req, s, u, 3, 2 * MAX_RETRY_AFTER, false)
    ensures Promise(true, req, s, Conclude(u, req.subject, outcome).0, 3, 2 * MAX_RETRY_AFTER, false)
  {
    hide Sends, SleptMs, MayResend, Trim;
  }

  lemma DelayIsBounded(env: Env, s: State, raw: string, error: RegError)
    requires Capped(s) && RegRetryable(error)
    requires error.Blocked? || error.RateLimited? ==> error.retryAfterSecs * 1000 <= MAX_COOLDOWN
    ensures var (u, ms) := RegRetryDelay(s, raw, error);
            var w := Sleep(env, u, ms);
      && Promise(true, Asked(raw), s, w, 0, MAX_COOLDOWN, true) && Sends(w.log) == Sends(s.log)
      && Capped(w) && !IsBlocked(w, raw)
  {
    hide Promise, Sends, Trim;
    var (u, ms) := RegRetryDelay(s, raw, error);
    var w := Sleep(env, u, ms);
    Nothing(true, Asked(raw), s, u);
    OneEvent(true, Asked(raw), u, w, Slept(ms));
    Chain(true, Asked(raw), s, u, w, 0, 0, 0, ms, true);
    Loosen(true, Asked(raw), s, w, 0, ms, true, 0, MAX_COOLDOWN, true);
  }

  /** The outer loop from one of its attempts on: at most three sends and ten seconds of sleep
      per attempt, five minutes between attempts.  It gives up as exhausted only after every
      remaining attempt failed in a way that may be retried, all but a blocked first one having
      reached the server. */
  lemma {:induction false} RetryIsBounded(env: Env, s: State, raw: string, attempt: nat)
    requires attempt < MAX_ATTEMPTS && Capped(s)
    ensures var (t, r) := Retry(env, s, raw, attempt);
            var left := MAX_ATTEMPTS - attempt;
      && Promise(true, Asked(raw), s, t, 3 * left, 2 * MAX_RETRY_AFTER * left + MAX_COOLDOWN * (left - 1), r.Exhausted?)
      && Capped(t)
      && (r.Exhausted? ==> Sends(t.log) >= Sends(s.log) + left - if IsBlocked(s, raw) then 1 else 0)
    decreases MAX_ATTEMPTS - attempt
  {
    hide Promise, Register, RegRetryDelay, Sends, Capped, IsBlocked, Asked;
    var left := MAX_ATTEMPTS - attempt;
    var req := Asked(raw);
    RegisterIsBounded(env, s, raw);
    var (t, r) := Register(env, s, raw);
    if Retried(r) && attempt < MAX_ATTEMPTS - 1 {
      DelayIsBounded(env, t, raw, r.error);
      var (u, ms) := RegRetryDelay(t, raw, r.error);
      var w := Sleep(env, u, ms);
      Chain(true, req, s, t, w, 3, 2 * MAX_RETRY_AFTER, 0, MAX_COOLDOWN, true);
      RetryIsBounded(env, w, raw, attempt + 1);
      var (z, q) := Retry(env, w, raw, attempt + 1);
      Chain(true, req, s, w, z, 3, 2 * MAX_RETRY_AFTER + MAX_COOLDOWN,
            3 * (left - 1), 2 * MAX_RETRY_AFTER * (left - 1) + MAX_COOLDOWN * (left - 2), q.Exhausted?);
      SendsGrow(true, req, s, t, 3, 2 * MAX_RETRY_AFTER, true);
    } else {
      SendsGrow(true, req, s, t, 3, 2 * MAX_RETRY_AFTER, Retried(r));
      Loosen(true, req, s, t, 3, 2 * MAX_RETRY_AFTER, Retried(r),
             3 * left, 2 * MAX_RETRY_AFTER * left + MAX_COOLDOWN * (left - 1), Retried(r) && attempt == MAX_ATTEMPTS - 1);
    }
  }

  lemma SendsGrow(registering: bool, req: Request, s: State, t: State, a: nat, x: nat, open: bool)
    requires Promise(registering, req, s, t, a, x, open)
    ensures Sends(s.log) <= Sends(t.log)
  {
    SendsOfPrefix(s.log, t.log);
  }

  lemma {:induction false} SendsOfPrefix(a: seq<Event>, b: seq<Event>)
    requires a <= b
    ensures Sends(a) <= Sends(b)
  {
    if |a| < |b| { SendsOfPrefix(a, b[..|b| - 1]); } else { assert a == b; }
  }

  // ---- cooldowns over a whole run -------------------------------------------------------

  datatype Op =
    | Registering(raw: string)
    | Retrying(raw: string)
    | Seeding(raw: string, token: string)
    | Invalidating(raw: string)
    | InvalidatingIf(raw: string, expected: string)
    | AskingRemaining(raw: string)
    | Waiting(ms: nat)

  /** Forgets the token and the cooldown of a name. */
  function Forget(s: State, name: string): State {
    s.(tokens := s.tokens - {name}, cooldowns := s.cooldowns - {name}, log := s.log + [Cleared(name)])
  }

  function Invalidate(s: State, raw: string): State {
    if Trim(raw) == "" then s else Forget(s, Trim(raw))
  }

  function InvalidateIf(env: Env, s: State, raw: string, expected: string): (State, bool) {
    var name, hash := Trim(raw), Lower(Trim(expected));
    if name == "" || hash == "" || name !in s.tokens || env.digest(s.tokens[name]) != hash then (s, false)
    else (Forget(s, name), true)
  }

  function Step(env: Env, s: State, op: Op): State {
    match op
    case Registering(raw) => Register(env, s, raw).0
    case Retrying(raw) => Retry(env, s, raw, 0).0
    case Seeding(raw, token) => s.(tokens := s.tokens[raw := token])
    case Invalidating(raw) => Invalidate(s, raw)
    case InvalidatingIf(raw, expected) => InvalidateIf(env, s, raw, expected).0
    case AskingRemaining(raw) => BlockRemaining(s, raw).0
    case Waiting(ms) => s.(clock := s.clock + ms)
  }

  const FRESH := State(map[], map[], 0, [])

  function Run(env: Env, ops: seq<Op>): State {
    if ops == [] then FRESH else Step(env, Run(env, ops[..|ops| - 1]), ops[|ops| - 1])
  }

  ghost predicate ClearedBetween(log: seq<Event>, i: int, j: int, name: string) {
    exists k :: 0 <= i < k < j <= |log| && log[k] == Cleared(name)
  }

  /** The cooldown taken up at position `i` has run out or was cleared by hand. */
  ghost predicate Over(s: State, i: nat)
    requires i < |s.log| && s.log[i].Limited?
  {
    s.log[i].until <= s.clock || ClearedBetween(s.log, i, |s.log|, s.log[i].subject)
  }

  ghost predicate Held(s: State, i: nat)
    requires i < |s.log| && s.log[i].Limited?
  {
    var name := s.log[i].subject;
    Over(s, i) || (name in s.cooldowns && s.cooldowns[name] >= s.log[i].until)
  }

  ghost predicate Quiet(s: State) {
    forall i :: 0 <= i < |s.log| && s.log[i].Limited? ==> Held(s, i)
  }

  ghost predicate Free(s: State, name: string) {
    forall i :: 0 <= i < |s.log| && s.log[i].Limited? && s.log[i].subject == name ==> Over(s, i)
  }

  /** Nothing is sent for a name before the end of a cooldown that was not cleared by hand. */
  ghost predicate Obeys(log: seq<Event>) {
    forall i, j :: 0 <= i < j < |log| && log[i].Limited? && log[j].Sent? && log[i].subject == log[j].subject ==>
      log[i].until <= log[j].at || ClearedBetween(log, i, j, log[i].subject)
  }

  ghost predicate Inv(s: State) {
    Capped(s) && Quiet(s) && Obeys(s.log)
  }

  lemma ClearedStays(log: seq<Event>, e: Event, i: nat, j: nat, name: string)
    requires j <= |log|
    ensures ClearedBetween(log, i, j, name) ==> ClearedBetween(log + [e], i, j, name) && ClearedBetween(log + [e], i, |log| + 1, name)
    ensures e == Cleared(name) && i < |log| ==> ClearedBetween(log + [e], i, |log| + 1, name)
  {
    if ClearedBetween(log, i, j, name) {
      var k :| 0 <= i < k < j <= |log| && log[k] == Cleared(name);
      assert (log + [e])[k] == Cleared(name);
    }
    if e == Cleared(name) { assert (log + [e])[|log|] == Cleared(name); }
  }

  lemma OverStays(s: State, t: State, e: Event, i: nat)
    requires i < |s.log| && s.log[i].Limited? && t.log == s.log + [e] && s.clock <= t.clock
    ensures Over(s, i) ==> Over(t, i)
    ensures e == Cleared(s.log[i].subject) ==> Over(t, i)
  {
    ClearedStays(s.log, e, i, |s.log|, s.log[i].subject);
  }

  lemma ObeysSnoc(s: State, e: Event)
    requires Obeys(s.log) && (e.Sent? ==> Free(s, e.subject) && e.at == s.clock)
    ensures Obeys(s.log + [e])
  {
    var log := s.log + [e];
    forall i, j | 0 <= i < j < |log| && log[i].Limited? && log[j].Sent? && log[i].subject == log[j].subject
      ensures log[i].until <= log[j].at || ClearedBetween(log, i, j, log[i].subject)
    {
      ClearedStays(s.log, e, i, j, log[i].subject) by { assert j <= |s.log|; }
      if j == |s.log| { assert Over(s, i); }
    }
  }

  lemma FreeStays(s: State, t: State, e: Event, name: string)
    requires t.log == s.log + [e] && s.clock <= t.clock && Free(s, name) && !e.Limited?
    ensures Free(t, name)
  {
    hide Over;
    forall i | 0 <= i < |t.log| && t.log[i].Limited? && t.log[i].subject == name ensures Over(t, i) {
      OverStays(s, t, e, i);
    }
  }

  /** A send to a free name, or a sleep. */
  lemma EventKeeps(s: State, t: State, e: Event, name: string)
    requires Inv(s) && Free(s, name) && t.log == s.log + [e] && s.clock <= t.clock && t.cooldowns == s.cooldowns
    requires e.Slept? || (e.Sent? && e.subject == name && e.at == s.clock)
    ensures Inv(t) && Free(t, name)
  {
    hide Over, Free;
    ObeysSnoc(s, e);
    FreeStays(s, t, e, name);
    forall i | 0 <= i < |t.log| && t.log[i].Limited? ensures Held(t, i) {
      assert Held(s, i);
      OverStays(s, t, e, i);
    }
  }

  lemma {:induction false} PerformKeeps(env: Env, s: State, req: Request, attempt: nat)
    requires attempt <= LAST && Inv(s) && Free(s, req.subject)
    ensures var t := Perform(env, s, req, attempt).0; Inv(t) && Free(t, req.subject) && t.cooldowns == s.cooldowns
    decreases LAST - attempt
  {
    hide Inv, Free, Judge;
    var reply := env.reply(|s.log|);
    var t := Send(env, s, req.subject);
    EventKeeps(s, t, Sent(req.subject, s.clock, reply), req.subject);
    match Judge(req, reply, attempt)
    case Done(_) =>
    case Again(ms) =>
      if attempt < LAST {
        var u := Sleep(env, t, ms);
        EventKeeps(t, u, Slept(ms), req.subject);
        PerformKeeps(env, u, req, attempt + 1);
      }
  }

  /** Dropping the cooldown of a free name. */
  lemma DropKeeps(s: State, t: State, name: string)
    requires Inv(s) && Free(s, name) && t.log == s.log && t.clock == s.clock && t.cooldowns == s.cooldowns - {name}
    ensures Inv(t) && Free(t, name)
  {
    forall i | 0 <= i < |t.log| && t.log[i].Limited? ensures Held(t, i) { assert Held(s, i); }
  }

  lemma BlockKeeps(s: State, raw: string)
    requires Inv(s)
    ensures var (t, remaining) := BlockRemaining(s, raw);
      Inv(t) && (Trim(raw) != "" && remaining.None? ==> Free(t, Trim(raw)))
  {
    hide Trim, Over, Capped, Obeys;
    var name := Trim(raw);
    if name != "" && (name !in s.cooldowns || s.cooldowns[name] <= s.clock) {
      forall i | 0 <= i < |s.log| && s.log[i].Limited? && s.log[i].subject == name ensures Over(s, i) {
        assert Held(s, i);
        Expired(s, i);
      }
      if name in s.cooldowns { DropKeeps(s, BlockRemaining(s, raw).0, name); }
    }
  }

  lemma Expired(s: State, i: nat)
    requires i < |s.log| && s.log[i].Limited? && Held(s, i)
    requires s.log[i].subject in s.cooldowns ==> s.cooldowns[s.log[i].subject] <= s.clock
    ensures Over(s, i)
  {
  }

  lemma LimitKeeps(s: State, t: State, name: string, until: nat)
    requires Inv(s) && Free(s, name) && until <= s.clock + MAX_COOLDOWN && t.log == s.log + [Limited(name, until)]
    requires t.clock == s.clock && t.cooldowns == s.cooldowns[name := until]
    ensures Inv(t)
  {
    hide Over;
    ObeysSnoc(s, Limited(name, until));
    forall i | 0 <= i < |t.log| && t.log[i].Limited? ensures Held(t, i) {
      if i < |s.log| {
        assert Held(s, i);
        OverStays(s, t, Limited(name, until), i);
      }
    }
  }

  lemma RegisterKeeps(env: Env, s: State, raw: string)
    requires Inv(s)
    ensures Inv(Register(env, s, raw).0)
  {
    hide Inv, Free, Perform, Trim, BlockRemaining;
    var name := Trim(raw);
    TrimTwice(raw);
    BlockKeeps(s, name);
    var (t, remaining) := BlockRemaining(s, name);
    if name != "" && name !in s.tokens && remaining.None? {
      PerformKeeps(env, t, RegistrationRequest(name), 0);
      var (u, outcome) := Perform(env, t, RegistrationRequest(name), 0);
      var w := Conclude(u, name, outcome).0;
      if w.log != u.log {
        LimitKeeps(u, w, name, w.cooldowns[name]);
      } else if w.cooldowns != u.cooldowns {
        DropKeeps(u, w, name);
      } else {
        SameKeeps(u, w);
      }
    }
  }

  lemma SameKeeps(s: State, t: State)
    requires Inv(s) && t.log == s.log && s.clock <= t.clock && t.cooldowns == s.cooldowns
    ensures Inv(t)
  {
    forall i | 0 <= i < |t.log| && t.log[i].Limited? ensures Held(t, i) { assert Held(s, i); }
  }

  lemma SleepKeeps(s: State, t: State, ms: nat)
    requires Inv(s) && t.log == s.log + [Slept(ms)] && s.clock <= t.clock && t.cooldowns == s.cooldowns
    ensures Inv(t)
  {
    hide Over;
    ObeysSnoc(s, Slept(ms));
    forall i | 0 <= i < |t.log| && t.log[i].Limited? ensures Held(t, i) {
      assert Held(s, i);
      OverStays(s, t, Slept(ms), i);
    }
  }

  lemma {:induction false} RetryKeeps(env: Env, s: State, raw: string, attempt: nat)
    requires attempt < MAX_ATTEMPTS && Inv(s)
    ensures Inv(Retry(env, s, raw, attempt).0)
    decreases MAX_ATTEMPTS - attempt
  {
    hide Inv, Register, BlockRemaining;
    RegisterKeeps(env, s, raw);
    var (t, r) := Register(env, s, raw);
    if r.Rejected? && RegRetryable(r.error) && attempt < MAX_ATTEMPTS - 1 {
      BlockKeeps(t, raw);
      var (u, ms) := RegRetryDelay(t, raw, r.error);
      SleepKeeps(u, Sleep(env, u, ms), ms);
      RetryKeeps(env, Sleep(env, u, ms), raw, attempt + 1);
    }
  }

  lemma ForgetKeeps(s: State, name: string)
    requires Inv(s)
    ensures Inv(Forget(s, name))
  {
    hide Over;
    var t := Forget(s, name);
    ObeysSnoc(s, Cleared(name));
    forall i | 0 <= i < |t.log| && t.log[i].Limited? ensures Held(t, i) {
      assert Held(s, i);
      OverStays(s, t, Cleared(name), i);
    }
  }

  lemma StepKeeps(env: Env, s: State, op: Op)
    requires Inv(s)
    ensures Inv(Step(env, s, op))
  {
    hide Inv, Register, Retry, BlockRemaining, Trim, Lower;
    match op
    case Registering(raw) => RegisterKeeps(env, s, raw);
    case Retrying(raw) => RetryKeeps(env, s, raw, 0);
    case Seeding(raw, token) => SameKeeps(s, Step(env, s, op));
    case Invalidating(raw) => ForgetKeeps(s, Trim(raw));
    case InvalidatingIf(raw, expected) => ForgetKeeps(s, Trim(raw));
    case AskingRemaining(raw) => BlockKeeps(s, raw);
    case Waiting(ms) => SameKeeps(s, Step(env, s, op));
  }

  lemma {:induction false} RunKeeps(env: Env, ops: seq<Op>)
    ensures Inv(Run(env, ops))
  {
    if ops != [] {
      RunKeeps(env, ops[..|ops| - 1]);
      StepKeeps(env, Run(env, ops[..|ops| - 1]), ops[|ops| - 1]);
    }
  }

  /** On every run of one client, whatever the server answers: nothing is sent for a name during
      a rate-limit cooldown that was not cleared by hand. */
  lemma CooldownIsRespected(env: Env, ops: seq<Op>)
    ensures Obeys(Run(env, ops).log)
  {
    RunKeeps(env, ops);
  }

  /** After every run, one `retry_agent_registration` sends at most nine requests and sleeps at
      most 630 seconds, and each request but the last was answered by an admission denial, a
      rate limit or a failed exchange; so a server error that arrived whole ends it. */
  lemma RegistrationBudget(env: Env, ops: seq<Op>, raw: string)
    ensures var s := Run(env, ops);
            var (t, r) := Retry(env, s, raw, 0);
      && s.log <= t.log
      && Sends(t.log) <= Sends(s.log) + 9
      && SleptMs(t.log) <= SleptMs(s.log) + 630_000
      && (forall i, j :: |s.log| <= i < j < |t.log| && t.log[i].Sent? && t.log[j].Sent? ==>
            Denied(t.log[i].reply) || Throttled(t.log[i].reply) || ExchangeFailed(t.log[i].reply))
      && (r.Exhausted? ==> Sends(t.log) >= Sends(s.log) + 2)
  {
    hide Retry, Sends, SleptMs, Trim;
    RunKeeps(env, ops);
    RetryIsBounded(env, Run(env, ops), raw, 0);
  }

  // ---- the last answer decides ----------------------------------------------------------

  ghost function LastReply(log: seq<Event>): Option<Reply> {
    if log == [] then None
    else if log[|log| - 1].Sent? then Some(log[|log| - 1].reply)
    else LastReply(log[..|log| - 1])
  }

  /** The server granted a token. */
  ghost predicate Grants(reply: Reply, token: string) {
    && reply.Response? && reply.status != 204 && reply.body.Envelope? && reply.body.ok
    && reply.body.payload == Usable(token) && Trim(token) != ""
  }

  /** The server answered with an error. */
  ghost predicate ErrorWith(reply: Reply, status: nat) {
    && reply.Response? && reply.status == status && 400 <= status <= 599
    && (reply.body.NotJson? || (reply.body.Envelope? && !reply.body.ok))
  }

  lemma LastOfSnoc(log: seq<Event>, e: Event)
    ensures LastReply(log + [e]) == if e.Sent? then Some(e.reply) else LastReply(log)
  {
    assert (log + [e])[..|log|] == log;
  }

  lemma JudgedLast(req: Request, reply: Reply, attempt: nat)
    requires attempt <= LAST && Judge(req, reply, attempt).Done?
    ensures Judge(req, reply, LAST) == Judge(req, reply, attempt)
  {
  }

  /** The outcome of a request is what its last answer means when no attempt is left. */
  lemma {:induction false} PerformReportsLast(env: Env, s: State, req: Request, attempt: nat)
    requires attempt <= LAST
    ensures var (t, outcome) := Perform(env, s, req, attempt);
      LastReply(t.log).Some? && Judge(req, LastReply(t.log).value, LAST) == Done(outcome)
    decreases LAST - attempt
  {
    hide Judge, LastReply;
    var reply := env.reply(|s.log|);
    var t := Send(env, s, req.subject);
    LastOfSnoc(s.log, Sent(req.subject, s.clock, reply));
    match Judge(req, reply, attempt)
    case Done(_) => JudgedLast(req, reply, attempt);
    case Again(ms) =>
      AgainIsHarmless(false, req, reply, attempt);
      PerformReportsLast(env, Sleep(env, t, ms), req, attempt + 1);
  }

  /** What a registration makes of the last answer it got. */
  ghost predicate Decided(r: RegResult, reply: Reply) {
    && (forall token :: r == Registered(token) <==> Grants(reply, token))
    && (r == Rejected(Transport) <==> ExchangeFailed(reply))
    && (r.Rejected? && r.error.RateLimited? <==> ErrorWith(reply, 429))
    && (r == Rejected(AlreadyExists) <==> ErrorWith(reply, 409))
    && (forall status :: r == Rejected(ApiError(status)) <==> ErrorWithCode(reply, status))
    && !(r.Rejected? && r.error.Blocked?)
  }

  /** An error that is neither a conflict nor a rate limit.  The status of a JSON error body is
      reported as it is, whatever it may be. */
  ghost predicate ErrorWithCode(reply: Reply, status: nat) {
    && reply.Response? && reply.status == status && status !in {204, 409, 429}
    && ((reply.body.NotJson? && 400 <= status <= 599) || (reply.body.Envelope? && !reply.body.ok))
  }

  lemma ConcludeDecides(s: State, name: string, reply: Reply)
    requires Judge(RegistrationRequest(name), reply, LAST).Done?
    ensures Decided(Conclude(s, name, Judge(RegistrationRequest(name), reply, LAST).outcome).1, reply)
    ensures LastReply(Conclude(s, name, Judge(RegistrationRequest(name), reply, LAST).outcome).0.log) == LastReply(s.log)
  {
    hide Trim, LastReply;
    var outcome := Judge(RegistrationRequest(name), reply, LAST).outcome;
    var t := Conclude(s, name, outcome).0;
    if t.log != s.log { LastOfSnoc(s.log, t.log[|s.log|]); }
  }

  lemma RegisterDecides(env: Env, s: State, raw: string)
    requires Capped(s)
    ensures var (t, r) := Register(env, s, raw);
      && (Sends(t.log) > Sends(s.log) <==> Trim(raw) != "" && Trim(raw) !in s.tokens && !IsBlocked(s, raw))
      && (Sends(t.log) > Sends(s.log) ==> LastReply(t.log).Some? && Decided(r, LastReply(t.log).value))
      && (r.Rejected? ==> t.tokens == s.tokens)
  {
    hide Sends, LastReply, Trim, Perform, Judge, Decided, Promise;
    var name := Trim(raw);
    TrimTwice(raw);
    var (t, remaining) := BlockRemaining(s, name);
    var req := RegistrationRequest(name);
    PerformReportsLast(env, t, req, 0);
    PerformIsBounded(env, t, req, 0, false);
    var (u, outcome) := Perform(env, t, req, 0);
    CappedLater(false, req, t, u, 3, LAST * MAX_RETRY_AFTER, false);
    ConcludeDecides(u, name, LastReply(u.log).value);
    ConcludeIsBounded(u, name, outcome);
  }

  /** From every state a run reaches: a registration that asked the server succeeds, with its token,
      exactly when the last answer granted one; it is exhausted exactly when the last exchange
      failed or was rate limited; and it reports a taken name exactly when the last answer was a
      conflict, so no conflict is ever retried. */
  lemma {:induction false} LastAnswerDecides(env: Env, s: State, raw: string, attempt: nat)
    requires attempt < MAX_ATTEMPTS && Capped(s)
    ensures var (t, r) := Retry(env, s, raw, attempt);
            var last := LastReply(t.log);
      Sends(t.log) > Sends(s.log) ==>
      && last.Some?
      && (forall token :: r == Token(token) <==> Grants(last.value, token))
      && (r.Exhausted? <==> ExchangeFailed(last.value) || ErrorWith(last.value, 429))
      && (r == Fatal(AlreadyExists) <==> ErrorWith(last.value, 409))
    decreases MAX_ATTEMPTS - attempt
  {
    hide Sends, LastReply, Trim, Register, RegRetryDelay, Promise, Capped, IsBlocked, Grants, ErrorWith, ExchangeFailed, ErrorWithCode;
    RegisterDecides(env, s, raw);
    RegisterIsBounded(env, s, raw);
    var (t, r) := Register(env, s, raw);
    if Retried(r) && attempt < MAX_ATTEMPTS - 1 {
      DelayIsBounded(env, t, raw, r.error);
      var (u, ms) := RegRetryDelay(t, raw, r.error);
      assert u.tokens == t.tokens by { DelayKeepsTokens(t, raw, r.error); }
      var w := Sleep(env, u, ms);
      NamedAndUncached(env, s, raw);
      RegisterDecides(env, w, raw);
      FirstTrySends(env, w, raw, attempt + 1);
      LastAnswerDecides(env, w, raw, attempt + 1);
    }
  }

  lemma DelayKeepsTokens(s: State, raw: string, error: RegError)
    ensures RegRetryDelay(s, raw, error).0.tokens == s.tokens
  {
  }

  lemma NamedAndUncached(env: Env, s: State, raw: string)
    ensures Retried(Register(env, s, raw).1) ==> Trim(raw) != "" && Trim(raw) !in s.tokens
  {
    hide Perform, Trim;
  }

  lemma FirstTrySends(env: Env, s: State, raw: string, attempt: nat)
    requires attempt < MAX_ATTEMPTS && Capped(s) && Sends(Register(env, s, raw).0.log) > Sends(s.log)
    ensures Sends(Retry(env, s, raw, attempt).0.log) > Sends(s.log)
  {
    hide Sends, Register, Promise, RegRetryDelay, Capped;
    RegisterIsBounded(env, s, raw);
    var (t, r) := Register(env, s, raw);
    if Retried(r) && attempt < MAX_ATTEMPTS - 1 {
      DelayIsBounded(env, t, raw, r.error);
      var (u, ms) := RegRetryDelay(t, raw, r.error);
      var w := Sleep(env, u, ms);
      RetryIsBounded(env, w, raw, attempt + 1);
      var z, q := Retry(env, w, raw, attempt + 1).0, Retry(env, w, raw, attempt + 1).1;
      var left := MAX_ATTEMPTS - attempt - 1;
      SendsGrow(true, Asked(raw), w, z, 3 * left, 2 * MAX_RETRY_AFTER * left + MAX_COOLDOWN * (left - 1), q.Exhausted?);
    }
  }

  // ---- when the first answer is the last ------------------------------------------------

  ghost predicate Ready(s: State, raw: string) {
    Capped(s) && Trim(raw) != "" && Trim(raw) !in s.tokens && !IsBlocked(s, raw)
  }

  lemma PerformStarts(env: Env, s: State, req: Request, attempt: nat)
    requires attempt <= LAST
    ensures s.log + [Sent(req.subject, s.clock, env.reply(|s.log|))] <= Perform(env, s, req, attempt).0.log
  {
    hide Judge, Perform, MayResend;
    var reply := env.reply(|s.log|);
    var t := Send(env, s, req.subject);
    PerformUnfolds(env, s, req, attempt);
    match Judge(req, reply, attempt)
    case Done(_) =>
    case Again(ms) =>
      AgainIsHarmless(false, req, reply, attempt);
      PerformIsBounded(env, Sleep(env, t, ms), req, attempt + 1, false);
  }

  lemma PerformUnfolds(env: Env, s: State, req: Request, attempt: nat)
    requires attempt <= LAST
    ensures var t := Send(env, s, req.subject);
      Perform(env, s, req, attempt) ==
        match Judge(req, env.reply(|s.log|), attempt)
        case Done(outcome) => (t, outcome)
        case Again(ms) => if attempt < LAST then Perform(env, Sleep(env, t, ms), req, attempt + 1) else (t, Fail(Http))
  {
    hide Judge;
  }

  /** A registration that may send does so, with the client's time and the server's answer. */
  lemma RegisterStarts(env: Env, s: State, raw: string)
    requires Ready(s, raw)
    ensures var t, req := BlockRemaining(s, Trim(raw)).0, Asked(raw);
      && t.log == s.log && t.clock == s.clock && t.tokens == s.tokens
      && Register(env, s, raw) == Conclude(Perform(env, t, req, 0).0, Trim(raw), Perform(env, t, req, 0).1)
      && Perform(env, t, req, 0).0.log <= Register(env, s, raw).0.log
      && s.log + [Sent(Trim(raw), s.clock, env.reply(|s.log|))] <= Register(env, s, raw).0.log
  {
    hide Perform, Trim, Capped;
    TrimTwice(raw);
    var t := BlockRemaining(s, Trim(raw)).0;
    PerformStarts(env, t, Asked(raw), 0);
  }

  lemma RetryStarts(env: Env, s: State, raw: string, attempt: nat)
    requires Ready(s, raw) && attempt < MAX_ATTEMPTS
    ensures Register(env, s, raw).0.log <= Retry(env, s, raw, attempt).0.log
    ensures s.log + [Sent(Trim(raw), s.clock, env.reply(|s.log|))] <= Retry(env, s, raw, attempt).0.log
  {
    hide Register, Promise, Trim, RegRetryDelay, IsBlocked, Sends, SleptMs, Capped;
    RegisterStarts(env, s, raw);
    RegisterIsBounded(env, s, raw);
    var (t, r) := Register(env, s, raw);
    if Retried(r) && attempt < MAX_ATTEMPTS - 1 {
      DelayIsBounded(env, t, raw, r.error);
      var (u, ms) := RegRetryDelay(t, raw, r.error);
      var w := Sleep(env, u, ms);
      RetryIsBounded(env, w, raw, attempt + 1);
      var left := MAX_ATTEMPTS - attempt - 1;
      var (z, q) := Retry(env, w, raw, attempt + 1);
      PrefixOf(true, Asked(raw), t, w, 0, MAX_COOLDOWN, true);
      PrefixOf(true, Asked(raw), w, z, 3 * left, 2 * MAX_RETRY_AFTER * left + MAX_COOLDOWN * (left - 1), q.Exhausted?);
    }
  }

  lemma PrefixOf(registering: bool, req: Request, s: State, t: State, a: nat, x: nat, open: bool)
    requires Promise(registering, req, s, t, a, x, open)
    ensures s.log <= t.log
  {
  }

  /** A denied request is sent again at once. */
  lemma DeniedIsResent(env: Env, s: State, raw: string)
    requires Ready(s, raw) && Denied(env.reply(|s.log|))
    ensures var log := Retry(env, s, raw, 0).0.log; |log| > |s.log| + 2 && log[|s.log| + 2].Sent?
  {
    hide Perform, Retry, Register, Trim, Ready;
    var req, reply := Asked(raw), env.reply(|s.log|);
    assert Judge(req, reply, 0).Again?;
    RegisterStarts(env, s, raw);
    RetryStarts(env, s, raw, 0);
    var t := BlockRemaining(s, Trim(raw)).0;
    PerformUnfolds(env, t, req, 0);
    var ms := Judge(req, reply, 0).ms;
    var u := Sleep(env, Send(env, t, req.subject), ms);
    PerformStarts(env, u, req, 1);
    assert (u.log + [Sent(req.subject, u.clock, env.reply(|u.log|))])[|s.log| + 2].Sent?;
  }

  /** After a failed exchange or a rate limit the next attempt sends again. */
  lemma FailedIsResent(env: Env, s: State, raw: string) returns (j: nat)
    requires Ready(s, raw) && !Denied(env.reply(|s.log|))
    requires ExchangeFailed(env.reply(|s.log|)) || Throttled(env.reply(|s.log|))
    ensures var log := Retry(env, s, raw, 0).0.log; |s.log| < j < |log| && log[j].Sent?
  {
    hide Perform, Retry, Register, Trim, RegRetryDelay, Promise, Capped, IsBlocked;
    var req, reply := Asked(raw), env.reply(|s.log|);
    RegisterStarts(env, s, raw);
    PerformUnfolds(env, BlockRemaining(s, Trim(raw)).0, req, 0);
    FailureIsRetried(raw, reply);
    var (t, r) := Register(env, s, raw);
    RegisterIsBounded(env, s, raw);
    RegisterDecides(env, s, raw);
    ConcludeRetries(env, s, raw);
    DelayIsBounded(env, t, raw, r.error);
    DelayKeepsTokens(t, raw, r.error);
    var (u, ms) := RegRetryDelay(t, raw, r.error);
    var w := Sleep(env, u, ms);
    RetryStarts(env, w, raw, 1);
    RetryContinues(env, s, raw, 0);
    PrefixOf(true, req, t, w, 0, MAX_COOLDOWN, true);
    j := |w.log|;
    assert (w.log + [Sent(Trim(raw), w.clock, env.reply(|w.log|))])[j].Sent?;
  }

  lemma FailureIsRetried(raw: string, reply: Reply)
    requires !Denied(reply) && (ExchangeFailed(reply) || Throttled(reply))
    ensures var v := Judge(Asked(raw), reply, 0); v.Done? && TriedAgain(v.outcome)
  {
  }

  lemma ConcludeRetries(env: Env, s: State, raw: string)
    requires Ready(s, raw) && Judge(Asked(raw), env.reply(|s.log|), 0).Done?
    requires TriedAgain(Judge(Asked(raw), env.reply(|s.log|), 0).outcome)
    ensures Retried(Register(env, s, raw).1)
  {
    hide Register, Perform, Judge, Trim;
    RegisterStarts(env, s, raw);
    PerformUnfolds(env, BlockRemaining(s, Trim(raw)).0, Asked(raw), 0);
  }

  lemma RetryContinues(env: Env, s: State, raw: string, attempt: nat)
    requires attempt < MAX_ATTEMPTS - 1 && Retried(Register(env, s, raw).1)
    ensures var (t, r) := Register(env, s, raw);
            var (u, ms) := RegRetryDelay(t, raw, r.error);
      Retry(env, s, raw, attempt) == Retry(env, Sleep(env, u, ms), raw, attempt + 1)
  {
    hide Register, RegRetryDelay;
  }

  /** From every state a run reaches in which a name may be registered: the first request is
      followed by another if and only if its answer was an admission denial, a rate limit, or
      never fully arrived.  A server error is thus final exactly when it arrives whole. */
  lemma FirstAnswerIsFinalIff(env: Env, s: State, raw: string)
    requires Ready(s, raw)
    ensures var log, first := Retry(env, s, raw, 0).0.log, env.reply(|s.log|);
      && |log| > |s.log| && log[|s.log|] == Sent(Trim(raw), s.clock, first)
      && ((exists j :: |s.log| < j < |log| && log[j].Sent?)
          <==> Denied(first) || Throttled(first) || ExchangeFailed(first))
  {
    hide Retry, Trim, Sends, SleptMs, Denied, Throttled, ExchangeFailed;
    var n, first := |s.log|, env.reply(|s.log|);
    var log := Retry(env, s, raw, 0).0.log;
    RetryStarts(env, s, raw, 0);
    assert log[n] == (s.log + [Sent(Trim(raw), s.clock, first)])[n];
    RetryIsBounded(env, s, raw, 0);
    if Denied(first) { DeniedIsResent(env, s, raw); }
    else if Throttled(first) || ExchangeFailed(first) { var j := FailedIsResent(env, s, raw); }
  }

  // ---- the budget is reached, and what it does not promise ------------------------------

  const BUSY := Response(0, 429, Some(300), Envelope(false, Some("workspace_busy"), Missing))

  /** A server that always denies admission, asking for five minutes. */
  ghost predicate AlwaysBusy(env: Env) {
    (forall n :: env.reply(n) == BUSY) && (forall n :: env.lag(n) == 0)
  }

  lemma CountSnoc(log: seq<Event>, e: Event)
    ensures Sends(log + [e]) == Sends(log) + if e.Sent? then 1 else 0
    ensures SleptMs(log + [e]) == SleptMs(log) + if e.Slept? then e.ms else 0
  {
    assert (log + [e])[..|log|] == log;
  }

  lemma {:induction false} BusyPerform(env: Env, s: State, name: string, attempt: nat)
    requires AlwaysBusy(env) && attempt <= LAST
    ensures var (t, outcome) := Perform(env, s, RegistrationRequest(name), attempt);
      && Sends(t.log) == Sends(s.log) + 3 - attempt
      && SleptMs(t.log) == SleptMs(s.log) + (LAST - attempt) * MAX_RETRY_AFTER
      && t.tokens == s.tokens && t.cooldowns == s.cooldowns
      && outcome == Fail(Api("workspace_busy", 429, Some(300_000)))
    decreases LAST - attempt
  {
    hide Sends, SleptMs;
    assert env.reply(|s.log|) == BUSY;
    var t := Send(env, s, name);
    CountSnoc(s.log, Sent(name, s.clock, BUSY));
    if attempt < LAST {
      assert Judge(RegistrationRequest(name), BUSY, attempt) == Again(MAX_RETRY_AFTER);
      var u := Sleep(env, t, MAX_RETRY_AFTER);
      CountSnoc(t.log, Slept(MAX_RETRY_AFTER));
      BusyPerform(env, u, name, attempt + 1);
    }
  }

  lemma BusyRegister(env: Env, s: State, name: string)
    requires AlwaysBusy(env) && name != "" && Trim(name) == name && name !in s.tokens && !IsBlocked(s, name)
    ensures var (t, r) := Register(env, s, name);
      && Sends(t.log) == Sends(s.log) + 3
      && SleptMs(t.log) == SleptMs(s.log) + 2 * MAX_RETRY_AFTER
      && t.tokens == s.tokens && name in t.cooldowns && t.cooldowns[name] == t.clock + MAX_COOLDOWN
      && r == Rejected(RateLimited(300))
  {
    hide Sends, SleptMs, Perform, Trim;
    var t := BlockRemaining(s, name).0;
    BusyPerform(env, t, name, 0);
    var (u, outcome) := Perform(env, t, RegistrationRequest(name), 0);
    CountSnoc(u.log, Limited(name, u.clock + MAX_COOLDOWN));
  }

  lemma {:induction false} BusyRetry(env: Env, s: State, name: string, attempt: nat)
    requires AlwaysBusy(env) && name != "" && Trim(name) == name && name !in s.tokens && !IsBlocked(s, name)
    requires attempt < MAX_ATTEMPTS
    ensures var t := Retry(env, s, name, attempt).0;
            var left := MAX_ATTEMPTS - attempt;
      && Sends(t.log) == Sends(s.log) + 3 * left
      && SleptMs(t.log) == SleptMs(s.log) + 2 * MAX_RETRY_AFTER * left + MAX_COOLDOWN * (left - 1)
    decreases MAX_ATTEMPTS - attempt
  {
    hide Sends, SleptMs, Register, Trim;
    BusyRegister(env, s, name);
    var (t, r) := Register(env, s, name);
    if attempt < MAX_ATTEMPTS - 1 {
      assert RegRetryDelay(t, name, r.error) == (t, MAX_COOLDOWN);
      CountSnoc(t.log, Slept(MAX_COOLDOWN));
      BusyRetry(env, Sleep(env, t, MAX_COOLDOWN), name, attempt + 1);
    }
  }

  /** Both bounds are reached: a workspace that stays busy is asked nine times in 630 seconds. */
  lemma BudgetIsReached(env: Env)
    requires AlwaysBusy(env)
    ensures var t := Retry(env, FRESH, "worker", 0).0; Sends(t.log) == 9 && SleptMs(t.log) == 630_000
  {
    hide Retry;
    assert !IsSpace('w') && !IsSpace('r');
    BusyRetry(env, FRESH, "worker", 0);
  }

  const BROKEN := Response(0, 500, None, Unread)

  lemma BrokenRegister(env: Env, s: State, name: string)
    requires (forall n :: env.reply(n) == BROKEN) && name != "" && Trim(name) == name
    requires name !in s.tokens && name !in s.cooldowns
    ensures var (t, r) := Register(env, s, name);
      && t.log == s.log + [Sent(name, s.clock, BROKEN)] && t.tokens == s.tokens && t.cooldowns == s.cooldowns
      && r == Rejected(Transport)
  {
    hide Trim;
    var req := RegistrationRequest(name);
    assert env.reply(|s.log|) == BROKEN;
    assert Judge(req, BROKEN, 0) == Done(Fail(Http));
    assert Perform(env, s, req, 0) == (Send(env, s, name), Fail(Http));
  }

  lemma {:induction false} BrokenRetry(env: Env, s: State, name: string, attempt: nat)
    requires (forall n :: env.reply(n) == BROKEN) && name != "" && Trim(name) == name
    requires name !in s.tokens && name !in s.cooldowns && attempt < MAX_ATTEMPTS
    ensures Sends(Retry(env, s, name, attempt).0.log) == Sends(s.log) + MAX_ATTEMPTS - attempt
    decreases MAX_ATTEMPTS - attempt
  {
    hide Sends, Register, Trim;
    BrokenRegister(env, s, name);
    var t := Register(env, s, name).0;
    CountSnoc(s.log, Sent(name, s.clock, BROKEN));
    if attempt < MAX_ATTEMPTS - 1 {
      CountSnoc(t.log, Slept(DEFAULT_RETRY));
      BrokenRetry(env, Sleep(env, t, DEFAULT_RETRY), name, attempt + 1);
    }
  }

  /** A server error whose body breaks off counts as a failed exchange, so the unkeyed POST is
      sent again although the server may have acted on it. */
  lemma BrokenServerErrorIsResent(env: Env)
    requires forall n :: env.reply(n) == BROKEN
    ensures Sends(Retry(env, FRESH, "worker", 0).0.log) == 3
  {
    hide Retry;
    assert !IsSpace('w') && !IsSpace('r');
    BrokenRetry(env, FRESH, "worker", 0);
  }

  // ---- the client as the source holds it ------------------------------------------------

  class AgentRegistrationClient {
    var tokens: map<string, string>
    var cooldowns: map<string, nat>
    var clock: nat
    var log: seq<Event>

    ghost function View(): State
      reads this
    {
      State(tokens, cooldowns, clock, log)
    }

    constructor ()
      ensures View() == FRESH && Inv(View())
    {
      tokens, cooldowns, clock, log := map[], map[], 0, [];
    }

    method SeedAgentToken(env: Env, raw: string, token: string)
      requires Inv(View())
      modifies this`tokens
      ensures View() == Step(env, old(View()), Seeding(raw, token)) && Inv(View())
    {
      StepKeeps(env, View(), Seeding(raw, token));
      tokens := tokens[raw := token];
    }

    method RegistrationBlockRemaining(raw: string) returns (remaining: Option<nat>)
      requires Inv(View())
      modifies this`cooldowns
      ensures (View(), remaining) == BlockRemaining(old(View()), raw) && Inv(View())
    {
      BlockKeeps(View(), raw);
      var name := Trim(raw);
      if name == "" || name !in cooldowns { return None; }
      if cooldowns[name] <= clock {
        cooldowns := cooldowns - {name};
        return None;
      }
      return Some(cooldowns[name] - clock);
    }

    method InvalidateCachedRegistration(raw: string)
      requires Inv(View())
      modifies this
      ensures View() == Invalidate(old(View()), raw) && Inv(View())
    {
      var name := Trim(raw);
      if name == "" { return; }
      ForgetKeeps(View(), name);
      tokens, cooldowns, log := tokens - {name}, cooldowns - {name}, log + [Cleared(name)];
    }

    method InvalidateCachedRegistrationIf(env: Env, raw: string, expected: string) returns (done: bool)
      requires Inv(View())
      modifies this
      ensures (View(), done) == InvalidateIf(env, old(View()), raw, expected) && Inv(View())
    {
      hide Trim, Lower, Inv;
      var name, hash := Trim(raw), Lower(Trim(expected));
      if name == "" || hash == "" { return false; }
      if name !in tokens || env.digest(tokens[name]) != hash { return false; }
      ForgetKeeps(View(), name);
      tokens, cooldowns, log := tokens - {name}, cooldowns - {name}, log + [Cleared(name)];
      return true;
    }

    /** The loop of `request_with_cursor`. */
    method RequestWithCursor(env: Env, req: Request) returns (outcome: Outcome)
      modifies this`clock, this`log
      ensures (View(), outcome) == Perform(env, old(View()), req, 0)
    {
      hide Judge;
      var attempt := 0;
      while true
        invariant attempt <= LAST
        invariant Perform(env, View(), req, attempt) == Perform(env, old(View()), req, 0)
        invariant tokens == old(tokens) && cooldowns == old(cooldowns)
        decreases LAST - attempt
      {
        var reply := env.reply(|log|);
        var verdict := Judge(req, reply, attempt);
        log, clock := log + [Sent(req.subject, clock, reply)], clock + reply.took;
        match verdict {
          case Done(result) => return result;
          case Again(ms) =>
            AgainIsHarmless(false, req, reply, attempt);
            log, clock := log + [Slept(ms)], clock + ms + env.lag(|log|);
            attempt := attempt + 1;
        }
      }
    }

    method RegisterAgentToken(env: Env, raw: string) returns (r: RegResult)
      requires Inv(View())
      modifies this
      ensures (View(), r) == Register(env, old(View()), raw) && Inv(View())
    {
      hide Trim, Inv, BlockRemaining, Perform;
      RegisterKeeps(env, View(), raw);
      var name := Trim(raw);
      if name == "" { return Rejected(InvalidAgentName); }
      if name in tokens { return Registered(tokens[name]); }
      var remaining := RegistrationBlockRemaining(name);
      if remaining.Some? {
        var secs := remaining.value / 1000;
        return Rejected(Blocked(if secs < 1 then 1 else secs));
      }
      var outcome := RequestWithCursor(env, RegistrationRequest(name));
      match outcome
      case Data(token) =>
        var value := token.GetOr("");
        if Trim(value) == "" { return Rejected(MissingToken); }
        tokens, cooldowns := tokens[name := value], cooldowns - {name};
        r := Registered(value);
      case Fail(failure) =>
        match failure
        case Api(_, status, retryAfterMs) =>
          if status == 409 { return Rejected(AlreadyExists); }
          if status == 429 {
            var cooldown := Cooldown(retryAfterMs);
            cooldowns, log := cooldowns[name := clock + cooldown], log + [Limited(name, clock + cooldown)];
            return Rejected(RateLimited(cooldown / 1000));
          }
          r := Rejected(ApiError(status));
        case Http => r := Rejected(Transport);
        case BadJson => r := Rejected(InvalidResponse);
        case BadResponse => r := Rejected(InvalidResponse);
    }

    /** The loop of `retry_agent_registration`. */
    method RetryAgentRegistration(env: Env, raw: string) returns (r: RetryResult)
      requires Inv(View())
      modifies this
      ensures (View(), r) == Retry(env, old(View()), raw, 0) && Inv(View())
    {
      hide Inv, Register, BlockRemaining;
      var attempt := 0;
      while true
        invariant attempt < MAX_ATTEMPTS
        invariant Inv(View())
        invariant Retry(env, View(), raw, attempt) == Retry(env, old(View()), raw, 0)
        decreases MAX_ATTEMPTS - attempt
      {
        var result := RegisterAgentToken(env, raw);
        match result
        case Registered(token) => return Token(token);
        case Rejected(error) =>
          if !RegRetryable(error) { return Fatal(error); }
          if attempt == MAX_ATTEMPTS - 1 { return Exhausted(error); }
          var remaining := RegistrationBlockRemaining(raw);
          var ms := if remaining.Some? then remaining.value
                    else if error.Blocked? || error.RateLimited? then error.retryAfterSecs * 1000
                    else DEFAULT_RETRY;
          SleepKeeps(View(), Sleep(env, View(), ms), ms);
          log, clock := log + [Slept(ms)], clock + ms + env.lag(|log|);
          attempt := attempt + 1;
      }
    }
  }
}
