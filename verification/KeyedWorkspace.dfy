/** Keyed workspace ids (packages/engine/src/gateway.ts) and the create path that relies on them
    (packages/actors-gateway/src/workspaceId.ts and router.ts).  The keyed hash, the credential
    parser, the tag check, fresh ids and the actors' answers are inputs. */
module KeyedWorkspace {
  import opened Wrappers
  import opened Strings
  import opened Digits

  // ---- shifts and bits on unbounded integers --------------------------------------------

  type Byte = b: int | 0 <= b < 256

  /** Bitwise or. */
  function Or(a: nat, b: nat): nat {
    if a == 0 && b == 0 then 0
    else 2 * Or(a / 2, b / 2) + if a % 2 == 1 || b % 2 == 1 then 1 else 0
  }

  /** Bitwise and. */
  function And(a: nat, b: nat): nat {
    if a == 0 || b == 0 then 0
    else 2 * And(a / 2, b / 2) + if a % 2 == 1 && b % 2 == 1 then 1 else 0
  }

  function Power2(k: nat): nat {
    if k == 0 then 1 else 2 * Power2(k - 1)
  }

  function ShiftLeft(a: nat, k: nat): nat {
    a * Power2(k)
  }

  /** The number whose digits to the base 256 are the bytes, the first the most significant. */
  ghost function BigEndian(bytes: seq<Byte>): nat {
    if bytes == [] then 0 else bytes[0] * Power2(8 * (|bytes| - 1)) + BigEndian(bytes[1..])
  }

  lemma {:induction false} OrWithZero(b: nat)
    ensures Or(0, b) == b
  {
    if b > 0 { OrWithZero(b / 2); }
  }

  /** Where the low bits are free, or is addition. */
  lemma {:induction false} OrIsPlus(a: nat, b: nat, k: nat)
    requires b < Power2(k)
    ensures Or(a * Power2(k), b) == a * Power2(k) + b
    decreases k
  {
    if a == 0 || k == 0 {
      if a == 0 { OrWithZero(b); } else { OrRightZero(a); }
    } else {
      var h := a * Power2(k - 1);
      assert a * Power2(k) == 2 * h by { assert Power2(k) == 2 * Power2(k - 1); }
      OrIsPlus(a, b / 2, k - 1);
      assert (2 * h) / 2 == h && (2 * h) % 2 == 0;
    }
  }

  lemma {:induction false} OrRightZero(a: nat)
    ensures Or(a, 0) == a
  {
    if a > 0 { OrRightZero(a / 2); }
  }

  lemma {:induction false} PowersArePositive(k: nat)
    ensures Power2(k) >= 1
  {
    if k > 0 { PowersArePositive(k - 1); }
  }

  lemma AndStep(a: nat, p: nat)
    requires p >= 1
    ensures And(a, 2 * p - 1) == 2 * And(a / 2, p - 1) + a % 2
  {
    assert (2 * p - 1) / 2 == p - 1 && (2 * p - 1) % 2 == 1;
  }

  /** Masking with a run of ones keeps the remainder. */
  lemma {:induction false} MaskIsRemainder(a: nat, k: nat)
    ensures Power2(k) >= 1 && And(a, Power2(k) - 1) == a % Power2(k)
    decreases k
  {
    hide And;
    PowersArePositive(k);
    if k == 0 {
      AndWithZero(a);
    } else {
      PowersArePositive(k - 1);
      MaskIsRemainder(a / 2, k - 1);
      AndStep(a, Power2(k - 1));
      DoubledRemainder(a, Power2(k - 1));
    }
  }

  lemma AndWithZero(a: nat)
    ensures And(a, 0) == 0 == a % 1
  {
  }

  lemma DoubledRemainder(a: nat, p: nat)
    requires p >= 1
    ensures a % (2 * p) == 2 * (a / 2 % p) + a % 2
  {
    var q, r := a / 2 / p, a / 2 % p;
    assert a / 2 == q * p + r;
    assert a == (2 * p) * q + (2 * r + a % 2);
    RemainderIs(a, 2 * p, q, 2 * r + a % 2);
  }

  lemma RemainderIs(a: int, n: int, q: int, r: int)
    requires n > 0 && a == n * q + r && 0 <= r < n
    ensures a % n == r
  {
    var d := a / n - q;
    assert a == n * (a / n) + a % n;
    assert n * d == r - a % n;
    assert d >= 1 ==> n * d >= n;
    assert d <= -1 ==> n * d <= -n;
  }

  // ---- the derived id -------------------------------------------------------------------

  const MAX_KEYED_ID: nat := 0x7FFF_FFFF_FFFF_FFFF

  function Scope(owner: Option<string>): string {
    match owner
    case None => "anonymous"
    case Some(id) => "owner:" + id
  }

  /** The text the keyed hash is taken of. */
  function Text(owner: Option<string>, key: string): string {
    "relaycast:workspace-id:v1:" + Scope(owner) + ":" + key
  }

  /** The first eight bytes of the hash as a positive 63-bit number. */
  ghost function KeyedNumber(mac: seq<Byte>): nat {
    var n := BigEndian(if |mac| < 8 then mac else mac[..8]) % 0x8000_0000_0000_0000;
    if n == 0 then 1 else n
  }

  lemma {:induction false} BigEndianSnoc(bytes: seq<Byte>, b: Byte)
    ensures BigEndian(bytes + [b]) == BigEndian(bytes) * 256 + b
  {
    hide Power2;
    var all := bytes + [b];
    if bytes == [] {
      assert all[1..] == [];
      assert BigEndian(all) == b * Power2(0) + BigEndian([]);
      EightMore(0);
    } else {
      BigEndianSnoc(bytes[1..], b);
      assert all[1..] == bytes[1..] + [b];
      var k := 8 * (|bytes| - 1);
      EightMore(k);
      assert bytes[0] * (Power2(k) * 256) == bytes[0] * Power2(k) * 256;
    }
  }

  lemma EightMore(k: nat)
    ensures Power2(k + 8) == Power2(k) * 256 && Power2(8) == 256 && Power2(0) == 1
  {
    assert Power2(k + 8) == 2 * Power2(k + 7) == 4 * Power2(k + 6) == 8 * Power2(k + 5) == 16 * Power2(k + 4);
    assert Power2(k + 4) == 2 * Power2(k + 3) == 4 * Power2(k + 2) == 8 * Power2(k + 1) == 16 * Power2(k);
    assert Power2(8) == 2 * Power2(7) == 4 * Power2(6) == 8 * Power2(5) == 16 * Power2(4);
    assert Power2(4) == 2 * Power2(3) == 4 * Power2(2) == 8 * Power2(1) == 16 * Power2(0);
  }

  lemma MaskIs63Bits()
    ensures Power2(63) == 0x8000_0000_0000_0000
  {
    EightMore(0);
    EightMore(8);
    EightMore(16);
    EightMore(24);
    EightMore(32);
    EightMore(40);
    EightMore(48);
    EightMore(56);
    assert Power2(64) == 2 * Power2(63);
  }

  /** `deriveKeyedWorkspaceId` from the hash on: the shift-or loop over its first eight bytes
      yields the decimal numeral of their big-endian value modulo 2 to the 63, with zero replaced
      by one: always a positive 63-bit id. */
  method DeriveKeyedWorkspaceId(mac: seq<Byte>) returns (id: string)
    ensures id == Show(KeyedNumber(mac))
    ensures AllDigits(id) && 1 <= Decimal(id) <= MAX_KEYED_ID
  {
    hide Or, And, Power2, BigEndian;
    var first := if |mac| < 8 then mac else mac[..8];
    var value: nat := 0;
    assert BigEndian([]) == 0 by { NoBytes(); }
    var i := 0;
    while i < |first|
      invariant i <= |first| && value == BigEndian(first[..i])
    {
      EightMore(0);
      OrIsPlus(value, first[i], 8);
      BigEndianSnoc(first[..i], first[i]);
      assert first[..i + 1] == first[..i] + [first[i]];
      value := Or(ShiftLeft(value, 8), first[i]);
      i := i + 1;
    }
    assert first[..i] == first;
    MaskIs63Bits();
    MaskIsRemainder(value, 63);
    value := And(value, MAX_KEYED_ID);
    id := Show(if value == 0 then 1 else value);
    ShowReadsBack(KeyedNumber(mac));
  }

  lemma NoBytes()
    ensures BigEndian([]) == 0
  {
  }

  /** Two creates hash the same text exactly when they have the same scope and key, or both have
      owners whose ids run into the keys at a colon. */
  lemma TextsCollideIff(a: Option<string>, k: string, b: Option<string>, l: string)
    ensures Text(a, k) == Text(b, l) <==>
              || (a == b && k == l)
              || (a.Some? && b.Some? && ColonJoin(a.value, k) == ColonJoin(b.value, l))
  {
    hide ColonJoin;
    StripPrefix("relaycast:workspace-id:v1:", Scope(a) + ":" + k, Scope(b) + ":" + l);
    assert Text(a, k) == "relaycast:workspace-id:v1:" + (Scope(a) + ":" + k);
    assert Text(b, l) == "relaycast:workspace-id:v1:" + (Scope(b) + ":" + l);
    assert "anonymous"[0] == 'a' && "owner:"[0] == 'o';
    match (a, b)
    case (None, None) => StripPrefix("anonymous:", k, l); assert "anonymous" + ":" + k == "anonymous:" + k && "anonymous" + ":" + l == "anonymous:" + l;
    case (Some(x), Some(y)) => OwnedTexts(x, k, y, l);
    case (None, Some(y)) => assert (Scope(a) + ":" + k)[0] == 'a' && (Scope(b) + ":" + l)[0] == 'o';
    case (Some(x), None) => assert (Scope(a) + ":" + k)[0] == 'o' && (Scope(b) + ":" + l)[0] == 'a';
  }

  lemma StripPrefix(p: string, a: string, b: string)
    ensures p + a == p + b <==> a == b
  {
    assert (p + a)[|p|..] == a && (p + b)[|p|..] == b;
  }

  lemma OwnedTexts(x: string, k: string, y: string, l: string)
    ensures "owner:" + x + ":" + k == "owner:" + y + ":" + l <==> ColonJoin(x, k) == ColonJoin(y, l)
  {
    StripPrefix("owner:", ColonJoin(x, k), ColonJoin(y, l));
    assert "owner:" + x + ":" + k == "owner:" + ColonJoin(x, k) && "owner:" + y + ":" + l == "owner:" + ColonJoin(y, l);
  }

  /** For anonymous creates and colon-free owner ids the hashed text determines scope and key. */
  lemma TextIsInjective(a: Option<string>, k: string, b: Option<string>, l: string)
    requires (a.Some? ==> ':' !in a.value) && (b.Some? ==> ':' !in b.value)
    ensures Text(a, k) == Text(b, l) <==> a == b && k == l
  {
    hide Text, ColonJoin;
    TextsCollideIff(a, k, b, l);
    if a.Some? && b.Some? { ColonJoinsCollideIff(a.value, k, b.value, l); }
  }

  /** With a colon in an owner id it does not. */
  lemma ColonConfusesOwners()
    ensures Text(Some("1:2"), "3") == Text(Some("1"), "2:3")
  {
    TextsCollideIff(Some("1:2"), "3", Some("1"), "2:3");
    assert ColonJoin("1:2", "3") == "1:2:3" == ColonJoin("1", "2:3");
  }

  // ---- the create path ------------------------------------------------------------------

  /** A header as Node presents it. */
  datatype Header = Absent | One(value: string) | Many(values: seq<string>)

  /** `bearer` is the trimmed, non-blank token of the Authorization header, if there is one;
      `headers` are the pairs that are passed on. */
  datatype Request = Request(key: Header, proof: Header, bearer: Option<string>, headers: seq<(string, string)>)

  datatype Config = Config(publicCreate: bool, secret: Option<string>, proofRequired: bool)

  datatype Kind = WorkspaceKind | OtherKind

  /** An `ar_` credential: its workspace is a decoded number, written in decimal. */
  datatype Credential = Credential(kind: Kind, workspace: nat)

  /** What an actor answers, or that it could not be reached. */
  datatype Reply = Answered(status: nat, code: Option<string>) | Unreachable

  /** One replica and one moment: the hash, the parser and the tag check are the deployment's,
      the rest is whatever happens this time. */
  datatype Env = Env(mac: (string, string) -> seq<Byte>, parse: string -> Option<Credential>, verify: string -> bool,
                     bodyFits: bool, minted: string, mintedAgain: string,
                     probe: Reply, created: Reply, createdAgain: Reply)

  datatype Effect = Probe(owner: string, bearer: string) | Create(id: string, headers: seq<(string, string)>)

  datatype Answer = Refused(status: nat, code: string) | Passed(reply: Reply)

  datatype Choice = Chosen(id: string, keyed: bool) | NotChosen(status: nat, code: string)

  const PROOF_HEADER := "x-workspace-bootstrap-secret"

  function KeyOf(req: Request): string {
    match req.key
    case Absent => ""
    case One(value) => JsTrim(value)
    case Many(values) => if values == [] then "" else JsTrim(values[0])
  }

  function JoinComma(values: seq<string>): string {
    if values == [] then "" else if |values| == 1 then values[0] else values[0] + ", " + JoinComma(values[1..])
  }

  function ProofOf(req: Request): string {
    match req.proof
    case Absent => ""
    case One(value) => value
    case Many(values) => JoinComma(values)
  }

  /** The workspace whose `ar_ws_` key the request presents. */
  function OwnerOf(env: Env, req: Request): Option<string> {
    match req.bearer
    case None => None
    case Some(token) =>
      match env.parse(token)
      case None => None
      case Some(credential) => if credential.kind.WorkspaceKind? then Some(Show(credential.workspace)) else None
  }

  ghost function DerivedId(env: Env, secret: string, req: Request): string {
    Show(KeyedNumber(env.mac(secret, Text(OwnerOf(env, req), KeyOf(req)))))
  }

  predicate IsTaken(reply: Reply) {
    reply == Answered(409, Some("workspace_exists"))
  }

  function Without(headers: seq<(string, string)>, names: set<string>): (r: seq<(string, string)>)
    ensures forall i :: 0 <= i < |r| ==> r[i].0 !in names && r[i] in headers
    ensures forall h :: h in headers && h.0 !in names ==> h in r
  {
    if headers == [] then []
    else (if headers[0].0 in names then [] else [headers[0]]) + Without(headers[1..], names)
  }

  /** The headers an owner's create is forwarded with: the bearer is dropped, and any proof the
      client sent is replaced by the gateway's own. */
  function OwnerHeaders(config: Config, req: Request): seq<(string, string)> {
    Without(req.headers, {"authorization", PROOF_HEADER})
    + if config.proofRequired && config.secret.Some? then [(PROOF_HEADER, config.secret.value)] else []
  }

  /** `chooseWorkspaceId`. */
  method ChooseWorkspaceId(config: Config, env: Env, req: Request) returns (r: Choice)
    ensures r == Chosen(env.minted, false) <==> KeyOf(req) == ""
    ensures KeyOf(req) != "" && config.secret.GetOr("") == "" ==> r == NotChosen(503, "workspace_create_idempotency_unavailable")
    ensures KeyOf(req) != "" && config.secret.GetOr("") != "" ==>
              var gated := config.proofRequired && OwnerOf(env, req).None? && (ProofOf(req) == "" || ProofOf(req) != config.secret.value);
              r == if gated then NotChosen(401, "workspace_create_bootstrap_secret_invalid")
                   else Chosen(DerivedId(env, config.secret.value, req), true)
  {
    var key := KeyOf(req);
    if key == "" { return Chosen(env.minted, false); }
    if config.secret.GetOr("") == "" { return NotChosen(503, "workspace_create_idempotency_unavailable"); }
    var owner := OwnerOf(env, req);
    if config.proofRequired && owner.None? {
      var proof := ProofOf(req);
      if proof == "" || proof != config.secret.value {
        return NotChosen(401, "workspace_create_bootstrap_secret_invalid");
      }
    }
    var id := DeriveKeyedWorkspaceId(env.mac(config.secret.value, Text(owner, key)));
    return Chosen(id, true);
  }

  ghost predicate IsKeyed(req: Request) {
    KeyOf(req) != ""
  }

  /** The keyed create is let through: the secret is set, and either an owner's key carries a
      valid tag and is accepted by the owner's actor, or no proof is needed, or it is given. */
  ghost predicate Admitted(config: Config, env: Env, req: Request) {
    && config.secret.GetOr("") != ""
    && if OwnerOf(env, req).Some? then env.verify(req.bearer.value) && env.probe.Answered? && env.probe.status == 200
       else config.proofRequired ==> ProofOf(req) == config.secret.value
  }

  ghost function CreatesIn(effects: seq<Effect>): seq<Effect> {
    if effects == [] then []
    else (if effects[0].Create? then [effects[0]] else []) + CreatesIn(effects[1..])
  }

  ghost function Forwarded(config: Config, env: Env, req: Request): seq<(string, string)> {
    if OwnerOf(env, req).Some? then OwnerHeaders(config, req) else req.headers
  }

  /** The creates a request should lead to. */
  ghost function Expected(config: Config, env: Env, req: Request): seq<Effect> {
    if !config.publicCreate || !env.bodyFits then []
    else if IsKeyed(req) then
      if Admitted(config, env, req)
      then [Create(DerivedId(env, config.secret.value, req), Forwarded(config, env, req))] else []
    else [Create(env.minted, req.headers)] + if IsTaken(env.created) then [Create(env.mintedAgain, req.headers)] else []
  }

  /** What the client gets to see of an actor's answer. */
  ghost function Relayed(reply: Reply): Answer {
    if reply.Unreachable? then Refused(502, "workspace_unavailable") else Passed(reply)
  }

  /** The answer to a create that presents an owner's key. */
  ghost function OwnerAnswer(env: Env, req: Request): Answer
    requires OwnerOf(env, req).Some?
  {
    if !env.verify(req.bearer.value) then Refused(401, "unauthorized")
    else if env.probe.Answered? && env.probe.status in {401, 403} then Refused(401, "unauthorized")
    else if env.probe.Unreachable? || env.probe.status != 200 then Relayed(env.probe)
    else Relayed(env.created)
  }

  /** The `POST /v1/workspaces` branch of `route`.  A keyed create reaches an actor exactly when it
      is admitted, then once and at the id derived from its key; an unkeyed one is made under a
      fresh id and once more under another exactly when the first was taken.  An owner's key is
      shown to the owner's actor only after its tag was verified, and travels no further. */
  method CreateWorkspace(config: Config, env: Env, req: Request) returns (effects: seq<Effect>, answer: Answer)
    ensures CreatesIn(effects) == Expected(config, env, req)
    ensures forall i :: 0 <= i < |effects| && effects[i].Probe? ==>
      && i == 0 && IsKeyed(req) && OwnerOf(env, req) == Some(effects[i].owner)
      && req.bearer == Some(effects[i].bearer) && env.verify(effects[i].bearer)
    ensures IsKeyed(req) && CreatesIn(effects) != [] && OwnerOf(env, req).Some? ==>
      |effects| == 2 && effects[0].Probe? && effects[1].Create?
    ensures !config.publicCreate ==> answer == Refused(404, "not_found")
    ensures config.publicCreate && !IsKeyed(req) ==>
      answer == if !env.bodyFits then Refused(413, "payload_too_large")
                else Relayed(if IsTaken(env.created) then env.createdAgain else env.created)
    ensures config.publicCreate && IsKeyed(req) ==>
      answer == if config.secret.GetOr("") == "" then Refused(503, "workspace_create_idempotency_unavailable")
                else if OwnerOf(env, req).None? && config.proofRequired && ProofOf(req) != config.secret.value
                then Refused(401, "workspace_create_bootstrap_secret_invalid")
                else if !env.bodyFits then Refused(413, "payload_too_large")
                else if OwnerOf(env, req).Some? then OwnerAnswer(env, req)
                else Relayed(env.created)
  {
    hide KeyOf, ProofOf, DerivedId, OwnerHeaders, JoinComma, CreatesIn;
    effects := [];
    NoCreates();
    if !config.publicCreate { return effects, Refused(404, "not_found"); }
    var choice := ChooseWorkspaceId(config, env, req);
    if choice.NotChosen? { return effects, Refused(choice.status, choice.code); }
    if !env.bodyFits { return effects, Refused(413, "payload_too_large"); }
    var headers := req.headers;
    var owner := if choice.keyed then OwnerOf(env, req) else None;
    if owner.Some? {
      if !env.verify(req.bearer.value) { return effects, Refused(401, "unauthorized"); }
      effects := [Probe(owner.value, req.bearer.value)];
      OneProbe(effects[0]);
      if env.probe.Unreachable? { return effects, Refused(502, "workspace_unavailable"); }
      if env.probe.status == 401 || env.probe.status == 403 { return effects, Refused(401, "unauthorized"); }
      if env.probe.status != 200 { return effects, Passed(env.probe); }
      headers := OwnerHeaders(config, req);
    }
    CreatesSnoc(effects, Create(choice.id, headers));
    effects := effects + [Create(choice.id, headers)];
    var response := env.created;
    if response.Unreachable? { return effects, Refused(502, "workspace_unavailable"); }
    if !choice.keyed && IsTaken(response) {
      CreatesSnoc(effects, Create(env.mintedAgain, headers));
      effects := effects + [Create(env.mintedAgain, headers)];
      response := env.createdAgain;
      if response.Unreachable? { return effects, Refused(502, "workspace_unavailable"); }
    }
    return effects, Passed(response);
  }

  lemma NoCreates()
    ensures CreatesIn([]) == []
  {
  }

  lemma OneProbe(e: Effect)
    requires e.Probe?
    ensures CreatesIn([e]) == []
  {
    assert [e][1..] == [];
  }

  lemma {:induction false} CreatesSnoc(effects: seq<Effect>, e: Effect)
    ensures CreatesIn(effects + [e]) == CreatesIn(effects) + if e.Create? then [e] else []
  {
    if effects != [] {
      CreatesSnoc(effects[1..], e);
      assert (effects + [e])[1..] == effects[1..] + [e];
    }
  }

  // ---- what the request says ------------------------------------------------------------

  /** A create is keyed by the first Idempotency-Key it presents, white space around it aside; it
      is unkeyed without one, or with one of white space only. */
  lemma KeyIsPresented(req: Request, a: string, key: string, b: string)
    requires AllJsSpace(a) && AllJsSpace(b) && (key == "" || (!IsJsSpace(key[0]) && !IsJsSpace(key[|key| - 1])))
    ensures req.key == One(a + key + b) ==> KeyOf(req) == key
    ensures forall rest :: req.key == Many([a + key + b] + rest) ==> KeyOf(req) == key
    ensures req.key == Absent || req.key == Many([]) ==> KeyOf(req) == ""
    ensures KeyOf(req) == "" <==> !IsKeyed(req)
  {
    hide JsTrim, IsJsSpace;
    JsTrimPadded(a, key, b);
  }

  /** The owner is the workspace of a workspace credential in the bearer token, in decimal; no
      other credential makes one. */
  lemma OwnerIs(env: Env, req: Request, n: nat, kind: Kind)
    requires req.bearer.Some? && env.parse(req.bearer.value) == Some(Credential(kind, n))
    ensures kind == WorkspaceKind ==> OwnerOf(env, req).Some? && AllDigits(OwnerOf(env, req).value) && Decimal(OwnerOf(env, req).value) == n
    ensures kind == OtherKind ==> OwnerOf(env, req) == None
  {
    ShowReadsBack(n);
  }

  lemma NoOwner(env: Env, req: Request)
    requires req.bearer == None || env.parse(req.bearer.value) == None
    ensures OwnerOf(env, req) == None
  {
  }

  /** A proof presented in parts is the parts joined by a comma and a space. */
  lemma {:induction false} ProofIsJoined(a: seq<string>, b: seq<string>)
    requires a != [] && b != []
    ensures JoinComma(a + b) == JoinComma(a) + ", " + JoinComma(b)
    ensures |b| == 1 ==> JoinComma(b) == b[0]
  {
    assert (a + b)[0] == a[0] && (a + b)[1..] == a[1..] + b;
    if |a| > 1 {
      ProofIsJoined(a[1..], b);
      Associates(a[0] + ", ", JoinComma(a[1..]), ", " + JoinComma(b));
    } else {
      assert a[1..] + b == b;
    }
  }

  lemma Associates(x: string, y: string, z: string)
    ensures x + (y + z) == (x + y) + z
  {
  }

  lemma ProofIs(req: Request)
    ensures req.proof == Absent ==> ProofOf(req) == ""
    ensures forall value :: req.proof == One(value) ==> ProofOf(req) == value
    ensures forall values :: req.proof == Many(values) ==> ProofOf(req) == JoinComma(values)
    ensures JoinComma([]) == ""
  {
  }

  /** An unkeyed create is made twice exactly when the first id was answered with a conflict that
      says the workspace exists. */
  lemma UnkeyedIsRepeatedIff(config: Config, env: Env, req: Request)
    requires config.publicCreate && env.bodyFits && !IsKeyed(req)
    ensures Expected(config, env, req) ==
      if env.created.Answered? && env.created.status == 409 && env.created.code == Some("workspace_exists")
      then [Create(env.minted, req.headers), Create(env.mintedAgain, req.headers)]
      else [Create(env.minted, req.headers)]
  {
  }

  // ---- across replicas and retries ------------------------------------------------------

  /** Two replicas, or one at two moments, of one deployment. */
  ghost predicate SameDeployment(a: Env, b: Env) {
    a.mac == b.mac && a.parse == b.parse
  }

  lemma NumeralsHaveNoColon(n: nat)
    ensures ':' !in Show(n)
  {
    ShowReadsBack(n);
  }

  lemma OwnersHaveNoColon(env: Env, req: Request)
    ensures OwnerOf(env, req).Some? ==> ':' !in OwnerOf(env, req).value
  {
    if OwnerOf(env, req).Some? { NumeralsHaveNoColon(env.parse(req.bearer.value).value.workspace); }
  }

  /** Whatever the replica, the attempt and the actors' answers: keyed creates with one key and one
      owner reach one id, a positive 63-bit number, and no request creates under two ids. */
  lemma KeyedCreatesMeet(c: Config, d: Config, a: Env, b: Env, req: Request, again: Request, x: Effect, y: Effect)
    requires SameDeployment(a, b) && c.secret == d.secret
    requires IsKeyed(req) && IsKeyed(again) && KeyOf(req) == KeyOf(again) && OwnerOf(a, req) == OwnerOf(b, again)
    requires x in Expected(c, a, req) && y in Expected(d, b, again)
    ensures x.Create? && y.Create? && x.id == y.id
    ensures AllDigits(x.id) && 1 <= Decimal(x.id) <= MAX_KEYED_ID
    ensures |Expected(c, a, req)| == 1
  {
    hide KeyOf, Text, BigEndian;
    ShowReadsBack(KeyedNumber(a.mac(c.secret.value, Text(OwnerOf(a, req), KeyOf(req)))));
  }

  /** Keyed creates with different keys or different owners hash different texts: an owner id
      that the router takes from a credential is a numeral, so it holds no colon. */
  lemma OtherKeysHashOtherTexts(a: Env, b: Env, req: Request, other: Request)
    ensures Text(OwnerOf(a, req), KeyOf(req)) == Text(OwnerOf(b, other), KeyOf(other)) <==>
            OwnerOf(a, req) == OwnerOf(b, other) && KeyOf(req) == KeyOf(other)
  {
    hide KeyOf, Text, OwnerOf;
    OwnersHaveNoColon(a, req);
    OwnersHaveNoColon(b, other);
    TextIsInjective(OwnerOf(a, req), KeyOf(req), OwnerOf(b, other), KeyOf(other));
  }

  /** An owner's create is forwarded without the owner's key; the only proof it can carry is the
      gateway's, present exactly when the deployment asks for one; every other header stays. */
  lemma OwnerKeyIsNotForwarded(config: Config, env: Env, req: Request, x: Effect)
    requires IsKeyed(req) && OwnerOf(env, req).Some? && x in Expected(config, env, req)
    ensures forall h :: h in x.headers ==> h.0 != "authorization"
    ensures forall h :: h in x.headers && h.0 == "x-workspace-bootstrap-secret" ==> h.1 == config.secret.value
    ensures config.proofRequired <==> ("x-workspace-bootstrap-secret", config.secret.value) in x.headers
    ensures forall h :: h in req.headers && h.0 != "authorization" && h.0 != "x-workspace-bootstrap-secret" ==> h in x.headers
    ensures forall h :: h in x.headers && h.0 != "x-workspace-bootstrap-secret" ==> h in req.headers
  {
    hide KeyOf, Text, DerivedId, Without;
    var kept := Without(req.headers, {"authorization", PROOF_HEADER});
    assert forall h :: h in kept ==> h.0 !in {"authorization", PROOF_HEADER};
  }
}
