/**
 What a login has to prove: an app's authentication policy, a client's own request, and the codes
 that carry the resulting deadline. Instants are nanoseconds; configured ages are whole seconds.
 */
module Authentication {
  import opened Optional

  type AppId = string
  type CodeId = string
  type SessionId = string
  type Hash = string
  type Jti = string

  const SECOND := 1_000_000_000
  const MAX_AGE := 2_147_483_647
  const CODE_TTL := 60 * SECOND

  /** `Unset` is the empty mode of a request that no app policy has joined yet. */
  datatype Mode = Unset | Reuse | Fresh | MaxAge | OtherMode
  datatype Factor = Password | Mfa | Passkey | OtherFactor
  datatype Method = Totp | Push | WebAuthn | OtherMethod
  datatype Acr = NoAcr | PasswordAcr | MfaAcr

  datatype Evidence = Evidence(primary: Option<int>, factor: Option<int>, how: Method)
  datatype AppPolicy = AppPolicy(mode: Mode, primaryMaxAge: int, factor: Factor, factorMaxAge: int)
  datatype AuthRequest = AuthRequest(anew: bool, silent: bool, maxAge: Option<int>, acr: Acr, app: AppPolicy)

  datatype Reason = Fine | PasswordRequired | PasswordExpired | FactorRequired | PasskeyRequired | FactorExpired

  const NO_POLICY := AppPolicy(Unset, 0, OtherFactor, 0)

  predicate Valid(p: AppPolicy) {
    && p.mode in {Reuse, Fresh, MaxAge}
    && p.factor in {Password, Mfa, Passkey}
    && 0 <= p.primaryMaxAge <= MAX_AGE && 0 <= p.factorMaxAge <= MAX_AGE
    && ((p.mode == MaxAge && p.primaryMaxAge > 0) || (p.mode != MaxAge && p.primaryMaxAge == 0))
    && (p.factor != Password || p.factorMaxAge == 0)
  }

  predicate Happened(at: Option<int>, now: int) {
    at.Some? && at.value <= now
  }

  predicate KnownMethod(m: Method) {
    m in {Totp, Push, WebAuthn}
  }

  function EvidenceReason(p: AppPolicy, e: Evidence, now: int): Reason {
    if (p.mode != Reuse || p.factor != Password) && !Happened(e.primary, now) then PasswordRequired
    else if p.mode == MaxAge && e.primary.value + p.primaryMaxAge * SECOND < now then PasswordExpired
    else if p.factor == Password then Fine
    else if !Happened(e.factor, now) then FactorRequired
    else if p.factor == Passkey && e.how != WebAuthn then PasskeyRequired
    else if !KnownMethod(e.how) then FactorRequired
    else if p.factorMaxAge > 0 && e.factor.value + p.factorMaxAge * SECOND < now then FactorExpired
    else Fine
  }

  function Earlier(a: Option<int>, b: Option<int>): Option<int> {
    if a.Some? && (b.None? || a.value < b.value) then a else b
  }

  function Deadline(p: AppPolicy, e: Evidence): Option<int> {
    var byPassword := if p.mode == MaxAge && e.primary.Some? then Some(e.primary.value + p.primaryMaxAge * SECOND)
      else None;
    if p.factorMaxAge > 0 && e.factor.Some? then Earlier(Some(e.factor.value + p.factorMaxAge * SECOND), byPassword)
      else byPassword
  }

  predicate Before(t: int, until: Option<int>) {
    until.None? || t <= until.value
  }

  /** Evidence good at one instant stays good exactly up to the policy's deadline. */
  lemma DeadlineIsExact(p: AppPolicy, e: Evidence, now: int, t: int)
    requires Valid(p) && EvidenceReason(p, e, now) == Fine && now <= t
    ensures EvidenceReason(p, e, t) == Fine <==> Before(t, Deadline(p, e))
  {
  }

  function Strength(f: Factor): int {
    match f
    case Password => 0
    case Mfa => 1
    case Passkey => 2
    case OtherFactor => -1
  }

  /** No age limit, or one no shorter. */
  predicate NoShorter(age: int, other: int) {
    age == 0 || (other > 0 && other <= age)
  }

  /** `q` asks for at least what `p` asks for. */
  predicate AtLeast(q: AppPolicy, p: AppPolicy) {
    && Strength(q.factor) >= Strength(p.factor) && NoShorter(p.factorMaxAge, q.factorMaxAge)
    && (p.mode == MaxAge ==> q.mode == MaxAge && q.primaryMaxAge <= p.primaryMaxAge)
    && (p.mode == Fresh ==> q.mode == Fresh)
  }

  /** A stronger policy accepts less, and each strength needs its own proof. */
  lemma StrongerAcceptsLess(q: AppPolicy, p: AppPolicy, e: Evidence, now: int)
    requires Valid(q) && Valid(p) && AtLeast(q, p) && EvidenceReason(q, e, now) == Fine
    ensures EvidenceReason(p, e, now) == Fine
    ensures q.factor == Passkey ==> e.how == WebAuthn
    ensures q.factor != Password ==> Happened(e.primary, now) && Happened(e.factor, now) && KnownMethod(e.how)
    ensures q.mode != Reuse ==> Happened(e.primary, now)
  {
  }

  // ---- the client's request -------------------------------------------------------------------------

  predicate RequestMet(r: AuthRequest, e: Evidence, now: int) {
    && !r.anew
    && (r.maxAge.Some? || r.acr != NoAcr ==> Happened(e.primary, now))
    && (r.maxAge.Some? ==> now - r.maxAge.value * SECOND <= e.primary.value)
    && (r.acr == MfaAcr ==> Happened(e.factor, now) && KnownMethod(e.how))
  }

  predicate Satisfied(r: AuthRequest, e: Evidence, now: int) {
    (r.app.mode != Unset ==> EvidenceReason(r.app, e, now) == Fine) && RequestMet(r, e, now)
  }

  /** App requirements and client requests combine restrictively. */
  function WithAppPolicy(r: AuthRequest, p: AppPolicy): AuthRequest {
    r.(app := p, anew := r.anew || p.mode == Fresh)
  }

  /** The combination accepts what both sides accept and, for a fresh policy, nothing already proven. */
  lemma CombinedIsBoth(r: AuthRequest, p: AppPolicy, e: Evidence, t: int)
    requires r.app == NO_POLICY && Valid(p)
    ensures Satisfied(WithAppPolicy(r, p), e, t) <==>
      Satisfied(r, e, t) && EvidenceReason(p, e, t) == Fine && p.mode != Fresh
  {
  }

  /** The requirement that outlives the login: everything but freshness. */
  function Lasting(r: AuthRequest, p: AppPolicy): AuthRequest {
    WithAppPolicy(r, p).(anew := false)
  }

  function RequestDeadline(r: AuthRequest, e: Evidence): Option<int> {
    if r.maxAge.Some? && e.primary.Some? then Some(e.primary.value + r.maxAge.value * SECOND) else None
  }

  /** What a code stores is the exact end of the lasting requirement. */
  lemma StoredDeadlineIsExact(r: AuthRequest, p: AppPolicy, e: Evidence, asked: int, checked: int, t: int)
    requires Valid(p) && EvidenceReason(p, e, checked) == Fine && checked <= t
    requires RequestMet(r.(anew := false), e, asked) && asked <= t
    ensures Satisfied(Lasting(r, p), e, t) <==> Before(t, Earlier(Deadline(p, e), RequestDeadline(r, e)))
  {
    DeadlineIsExact(p, e, checked, t);
  }

  // ---- codes and tokens -----------------------------------------------------------------------------

  datatype Interaction = Interaction(created: int, session: Option<SessionId>, expiresAt: int)

  /** `request` is what the client asked for; a code row keeps only its consequences. */
  datatype Code = Code(
    session: SessionId,
    request: AuthRequest,
    evidence: Evidence,
    app: AppId,
    revision: nat,
    roles: nat,
    until: Option<int>,
    asked: int,
    created: int,
    expiresAt: int,
    used: bool)

  /** A live token, with the code it was exchanged for. */
  datatype Token = Token(code: Code, issued: int)

  /** An app record: the policy with its revision, the revision of its roles, and its own. */
  datatype Row = Row(policy: AppPolicy, revision: nat, roles: nat, record: nat)

  /**
   One client's record, the other records it may be linked into, and the rows that depend on the policy.
   `ids` and `apps` remember every code and record ever stored; their ids are random and never repeat.
   */
  datatype State = State(
    app: AppId,
    own: Row,
    others: map<AppId, Row>,
    apps: set<AppId>,
    codes: map<CodeId, Code>,
    ids: set<CodeId>,
    interactions: map<Hash, Interaction>,
    tokens: map<Jti, Token>)

  function Initial(app: AppId, policy: AppPolicy): State {
    State(app, Row(policy, 1, 0, 1), map[], {app}, map[], {}, map[], map[])
  }

  predicate BoundTo(st: State, interaction: Hash, session: SessionId, now: int) {
    && interaction in st.interactions
    && st.interactions[interaction].session == Some(session)
    && now < st.interactions[interaction].expiresAt
  }

  /** The request as asked, joined with the policy as read, at the first check. */
  predicate Asked(r: AuthRequest, read: AppPolicy, e: Evidence, interaction: Option<Hash>, asked: int) {
    Satisfied(if interaction.Some? then Lasting(r, read) else WithAppPolicy(r, read), e, asked)
  }

  /** The policy as it stands when the code commits. */
  predicate Commits(st: State, e: Evidence, session: SessionId, interaction: Option<Hash>, now: int) {
    && Valid(st.own.policy) && EvidenceReason(st.own.policy, e, now) == Fine
    && (st.own.policy.mode == Fresh ==>
          interaction.Some? && BoundTo(st, interaction.value, session, now) && e.primary.Some?
          && st.interactions[interaction.value].created <= e.primary.value)
    && (interaction.Some? ==> BoundTo(st, interaction.value, session, now))
  }

  /** Everything a caller brings to the creation of a code. */
  datatype Ask = Ask(
    id: CodeId,
    session: SessionId,
    request: AuthRequest,
    read: AppPolicy,
    evidence: Evidence,
    interaction: Option<Hash>,
    asked: int)

  /**
   A code is created in two steps: the engine checks the policy it read at `asked`, the store checks
   again at `now`. `admitted` stands for the access, session and enrollment conditions of the insert.
   */
  function CreateCode(st: State, k: Ask, admitted: bool, now: int): (State, bool) {
    if k.id in st.ids || !admitted || !Asked(k.request, k.read, k.evidence, k.interaction, k.asked)
       || !Commits(st, k.evidence, k.session, k.interaction, now) then (st, false)
    else
      var until := Earlier(Deadline(st.own.policy, k.evidence), RequestDeadline(k.request, k.evidence));
      var code := Code(k.session, k.request, k.evidence, st.app, st.own.revision, st.own.roles, until, k.asked, now,
                       k.asked + CODE_TTL, false);
      (st.(codes := st.codes[k.id := code], ids := st.ids + {k.id},
           interactions := if k.interaction.Some? then st.interactions - {k.interaction.value}
             else st.interactions), true)
  }

  /** Every edit ends the outstanding grants; an unchanged policy is not an edit. */
  function SetPolicy(st: State, p: AppPolicy, record: nat): (State, bool) {
    if !Valid(p) || record != st.own.record then (st, false)
    else if p == st.own.policy then (st, true)
    else (st.(own := st.own.(policy := p, revision := st.own.revision + 1, record := st.own.record + 1),
              codes := map[], interactions := map[], tokens := map[]), true)
  }

  predicate Spendable(st: State, id: CodeId, now: int) {
    id in st.codes && !st.codes[id].used && now < st.codes[id].expiresAt
  }

  function Spend(st: State, id: CodeId, now: int): (State, bool) {
    if Spendable(st, id, now) then (st.(codes := st.codes[id := st.codes[id].(used := true)]), true) else (st, false)
  }

  /** Everything an exchange asks of the code besides the authentication deadline. */
  predicate Presented(st: State, id: CodeId, session: SessionId, now: int) {
    && id in st.codes && var c := st.codes[id];
    && c.session == session && c.used && now < c.expiresAt
    && c.app == st.app && c.revision == st.own.revision && c.roles == st.own.roles
  }

  /** What recording a token asks of the code it came from. */
  predicate Exchanges(st: State, id: CodeId, session: SessionId, now: int) {
    Presented(st, id, session, now) && Before(now, st.codes[id].until)
  }

  function Record(st: State, j: Jti, id: CodeId, session: SessionId, admitted: bool, now: int): (State, bool) {
    if j in st.tokens || !admitted || !Exchanges(st, id, session, now) then (st, false)
    else (st.(tokens := st.tokens[j := Token(st.codes[id], now)]), true)
  }

  /** The client becomes a record of its own, under the policy and revision it had. */
  function Unlinked(st: State, app: AppId): State {
    if app in st.apps then st
    else st.(app := app, own := Row(st.own.policy, st.own.revision, 0, 1), apps := st.apps + {app},
             others := st.others[st.app := st.own.(record := st.own.record + 1)])
  }

  /** The client's record is linked into another, which must ask for the same. */
  function Merged(st: State, target: AppId): State {
    if target !in st.others || target == st.app || st.others[target].policy != st.own.policy then st
    else st.(app := target, own := st.others[target].(record := st.others[target].record + 1),
             others := st.others - {target, st.app})
  }

  /** Another record is linked into the client's. */
  function Absorbed(st: State, source: AppId): State {
    if source !in st.others || st.others[source].policy != st.own.policy then st
    else st.(own := st.own.(record := st.own.record + 1), others := st.others - {source})
  }

  /** A record changes only forward: one revision stands for one policy. */
  predicate Follows(row: Row, row': Row) {
    row.revision < row'.revision || (row.revision == row'.revision && row.policy == row'.policy)
  }

  /** Another record is created, edited or deleted. */
  function Elsewhere(st: State, app: AppId, row: Option<Row>): State {
    if app == st.app then st
    else if row.None? then st.(others := st.others - {app})
    else if if app in st.others then Follows(st.others[app], row.value) else app !in st.apps then
      st.(others := st.others[app := row.value], apps := st.apps + {app})
    else st
  }

  datatype Event =
    | Edit(policy: AppPolicy, record: nat)
    | Create(ask: Ask, admitted: bool)
    | Consume(id: CodeId)
    | Issue(jti: Jti, code: CodeId, session: SessionId, allowed: bool)
    | Revoke(jti: Jti)
    | Open(hash: Hash, row: Interaction)
    | Close(hash: Hash)
    | Forget(id: CodeId)
    | Bump
    | Reroled
    | UnlinkTo(app: AppId)
    | LinkInto(app: AppId)
    | LinkFrom(app: AppId)
    | Other(app: AppId, becomes: Option<Row>)

  function Step(st: State, ev: Event, now: int): State {
    match ev
    case Edit(p, record) => SetPolicy(st, p, record).0
    case Create(k, admitted) => CreateCode(st, k, admitted, now).0
    case Consume(id) => Spend(st, id, now).0
    case Issue(j, id, session, admitted) => Record(st, j, id, session, admitted, now).0
    case Revoke(j) => st.(tokens := st.tokens - {j})
    case Open(h, row) => st.(interactions := st.interactions[h := row])
    case Close(h) => st.(interactions := st.interactions - {h})
    case Forget(id) => st.(codes := st.codes - {id})
    case Bump => st.(own := st.own.(record := st.own.record + 1))
    case Reroled => st.(own := st.own.(roles := st.own.roles + 1, record := st.own.record + 1))
    case UnlinkTo(app) => Unlinked(st, app)
    case LinkInto(app) => Merged(st, app)
    case LinkFrom(app) => Absorbed(st, app)
    case Other(app, row) => Elsewhere(st, app, row)
  }

  datatype Moment = Moment(event: Event, now: int)

  function Run(st: State, moments: seq<Moment>): State
    decreases |moments|
  {
    if moments == [] then st else Run(Step(st, moments[0].event, moments[0].now), moments[1..])
  }

  /** The clock never runs back, and a code is asked for before it is stored. */
  predicate Monotone(moments: seq<Moment>, from: int, to: int) {
    if moments == [] then from <= to
    else
      && from <= moments[0].now
      && (moments[0].event.Create? ==> moments[0].event.ask.asked <= moments[0].now)
      && Monotone(moments[1..], moments[0].now, to)
  }

  function RowAt(st: State, app: AppId): Option<Row> {
    if app == st.app then Some(st.own) else if app in st.others then Some(st.others[app]) else None
  }

  /** A code under a record's current revision was admitted by its current policy. */
  predicate AdmittedBy(row: Row, c: Code) {
    && c.revision <= row.revision
    && (c.revision == row.revision ==>
          && Valid(row.policy) && EvidenceReason(row.policy, c.evidence, c.created) == Fine
          && c.until == Earlier(Deadline(row.policy, c.evidence), RequestDeadline(c.request, c.evidence)))
  }

  predicate CodeSound(st: State, c: Code, now: int) {
    && c.asked <= c.created <= now && c.app in st.apps
    && RequestMet(c.request.(anew := false), c.evidence, c.asked)
    && (RowAt(st, c.app).Some? ==> AdmittedBy(RowAt(st, c.app).value, c))
  }

  /** A token's login met the policy as it is now, and its client's request, when it was issued. */
  predicate TokenSound(st: State, tk: Token) {
    Satisfied(Lasting(tk.code.request, st.own.policy), tk.code.evidence, tk.issued)
  }

  predicate Sound(st: State, now: int) {
    && st.app in st.apps && st.others.Keys <= st.apps
    && (forall id :: id in st.codes ==> CodeSound(st, st.codes[id], now))
    && (forall j :: j in st.tokens ==> TokenSound(st, st.tokens[j]))
  }

  lemma SoundLater(st: State, before: int, now: int)
    requires Sound(st, before) && before <= now
    ensures Sound(st, now)
  {
    forall id | id in st.codes ensures CodeSound(st, st.codes[id], now) {
      assert CodeSound(st, st.codes[id], before);
    }
  }

  lemma CreateKeeps(st: State, k: Ask, admitted: bool, now: int)
    requires Sound(st, now) && k.asked <= now
    ensures Sound(CreateCode(st, k, admitted, now).0, now)
  {
    var (st', ok) := CreateCode(st, k, admitted, now);
    if ok {
      assert RequestMet(k.request.(anew := false), k.evidence, k.asked);
      assert CodeSound(st', st'.codes[k.id], now);
      assert forall id :: id in st.codes ==> CodeSound(st, st.codes[id], now) && CodeSound(st', st.codes[id], now);
    }
  }

  /** A passed exchange means the requirements hold at that instant, and so does the converse. */
  lemma ExchangeIsExact(st: State, c: Code, now: int)
    requires CodeSound(st, c, now) && c.app == st.app && c.revision == st.own.revision
    ensures Before(now, c.until) <==> Satisfied(Lasting(c.request, st.own.policy), c.evidence, now)
  {
    StoredDeadlineIsExact(c.request, st.own.policy, c.evidence, c.asked, c.created, now);
  }

  lemma RecordKeeps(st: State, j: Jti, id: CodeId, session: SessionId, admitted: bool, now: int)
    requires Sound(st, now)
    ensures Sound(Record(st, j, id, session, admitted, now).0, now)
  {
    if Record(st, j, id, session, admitted, now).1 {
      ExchangeIsExact(st, st.codes[id], now);
    }
  }

  /** No record that stays goes back, no id comes again, and the client's policy is the one it was. */
  ghost predicate MovesOn(st: State, st': State) {
    && st' == st.(app := st'.app, own := st'.own, others := st'.others, apps := st'.apps)
    && st.apps <= st'.apps && st'.app in st'.apps && st'.others.Keys <= st'.apps && st'.own.policy == st.own.policy
    && (forall app :: app in st.apps && RowAt(st', app).Some? ==>
          RowAt(st, app).Some? && Follows(RowAt(st, app).value, RowAt(st', app).value))
  }

  lemma MovingKeeps(st: State, st': State, now: int)
    requires Sound(st, now) && MovesOn(st, st')
    ensures Sound(st', now)
  {
    forall id | id in st'.codes ensures CodeSound(st', st'.codes[id], now) {
      assert CodeSound(st, st.codes[id], now);
    }
    forall j | j in st'.tokens ensures TokenSound(st', st'.tokens[j]) {
      assert TokenSound(st, st.tokens[j]);
    }
  }

  predicate Moves(ev: Event) {
    ev.UnlinkTo? || ev.LinkInto? || ev.LinkFrom? || ev.Other? || ev.Bump? || ev.Reroled?
  }

  lemma StepMovesOn(st: State, ev: Event, now: int)
    requires Moves(ev) && st.app in st.apps && st.others.Keys <= st.apps
    ensures MovesOn(st, Step(st, ev, now))
  {
  }

  lemma ConsumeKeeps(st: State, id: CodeId, now: int)
    requires Sound(st, now)
    ensures Sound(Spend(st, id, now).0, now)
  {
    assert Spendable(st, id, now) ==> CodeSound(st, st.codes[id], now);
  }

  lemma StepKeeps(st: State, ev: Event, before: int, now: int)
    requires Sound(st, before) && before <= now && (ev.Create? ==> ev.ask.asked <= now)
    ensures Sound(Step(st, ev, now), now)
  {
    SoundLater(st, before, now);
    match ev
    case Create(k, admitted) => CreateKeeps(st, k, admitted, now);
    case Issue(j, id, session, admitted) => RecordKeeps(st, j, id, session, admitted, now);
    case Consume(id) => ConsumeKeeps(st, id, now);
    case Edit(_, _) =>
    case Revoke(_) =>
    case Open(_, _) =>
    case Close(_) =>
    case Forget(_) =>
    case _ =>
      StepMovesOn(st, ev, now);
      MovingKeeps(st, Step(st, ev, now), now);
  }

  lemma {:induction false} RunKeeps(st: State, moments: seq<Moment>, from: int, to: int)
    requires Sound(st, from) && Monotone(moments, from, to)
    ensures Sound(Run(st, moments), to)
    decreases |moments|
  {
    if moments == [] {
      SoundLater(st, from, to);
    } else {
      StepKeeps(st, moments[0].event, from, moments[0].now);
      RunKeeps(Step(st, moments[0].event, moments[0].now), moments[1..], moments[0].now, to);
    }
  }

  /**
   After any history of policy edits and codes, whatever the policy was when a code was asked for:
   an exchange at any later instant passes only if the login still meets both the app's policy as it
   is now and the client's request, and a live code of the current revision fails only if it does not.
   */
  lemma ExchangeMeetsCurrentRequirements(app: AppId, policy: AppPolicy, moments: seq<Moment>, from: int, to: int,
      id: CodeId,
      session: SessionId, t: int)
    requires Monotone(moments, from, to) && to <= t
    ensures var st := Run(Initial(app, policy), moments);
      Exchanges(st, id, session, t) <==>
        Presented(st, id, session, t)
          && Satisfied(Lasting(st.codes[id].request, st.own.policy), st.codes[id].evidence, t)
  {
    RunKeeps(Initial(app, policy), moments, from, to);
    var st := Run(Initial(app, policy), moments);
    if Presented(st, id, session, t) {
      assert CodeSound(st, st.codes[id], to);
      ExchangeIsExact(st, st.codes[id], t);
    }
  }

  /**
   And a token that is live after any history was issued to a login that met, at that instant, the policy
   in force now, however the policy has been changed and changed back in between.
   */
  lemma LiveTokensMetThePolicy(app: AppId, policy: AppPolicy, moments: seq<Moment>, from: int, to: int, j: Jti)
    requires Monotone(moments, from, to) && j in Run(Initial(app, policy), moments).tokens
    ensures var st := Run(Initial(app, policy), moments);
      Satisfied(Lasting(st.tokens[j].code.request, st.own.policy), st.tokens[j].code.evidence, st.tokens[j].issued)
  {
    RunKeeps(Initial(app, policy), moments, from, to);
    assert TokenSound(Run(Initial(app, policy), moments), Run(Initial(app, policy), moments).tokens[j]);
  }

  /** Freshness: no code without a completed interaction of that very session, spent with it. */
  lemma FreshTakesAnInteraction(st: State, k: Ask, admitted: bool, now: int)
    requires k.request.anew || k.read.mode == Fresh || st.own.policy.mode == Fresh
    ensures var (st', ok) := CreateCode(st, k, admitted, now);
      ok ==>
        && k.interaction.Some? && BoundTo(st, k.interaction.value, k.session, now)
        && k.interaction.value !in st'.interactions
        && (st.own.policy.mode == Fresh ==>
              k.evidence.primary.Some?
                && st.interactions[k.interaction.value].created <= k.evidence.primary.value <= now)
  {
  }

  // ---- what a login has proved ----------------------------------------------------------------------

  predicate Proved(at: Option<int>, t: int) { at.Some? && at.value <= t }

  /** At most so many seconds old, or of any age. */
  predicate NoOlder(at: Option<int>, age: Option<int>, t: int) {
    age.Some? ==> at.Some? && t - at.value <= age.value * SECOND
  }

  predicate SecondFactor(e: Evidence, t: int) {
    Proved(e.factor, t) && e.how in {Totp, Push, WebAuthn}
  }

  /** What the app's policy demands, put in terms of the proofs. */
  predicate PolicyDemands(p: AppPolicy, e: Evidence, t: int) {
    && (p.mode != Reuse || p.factor != Password ==> Proved(e.primary, t))
    && (p.mode == MaxAge ==> NoOlder(e.primary, Some(p.primaryMaxAge), t))
    && (p.factor != Password ==> SecondFactor(e, t))
    && (p.factor == Passkey ==> e.how == WebAuthn)
    && (p.factorMaxAge > 0 ==> NoOlder(e.factor, Some(p.factorMaxAge), t))
  }

  /** What the client's request demands, but for freshness. */
  predicate RequestDemands(r: AuthRequest, e: Evidence, t: int) {
    && (r.maxAge.Some? || r.acr in {PasswordAcr, MfaAcr} ==> Proved(e.primary, t))
    && NoOlder(e.primary, r.maxAge, t)
    && (r.acr == MfaAcr ==> SecondFactor(e, t))
  }

  /** A policy accepts exactly the evidence that has what it demands. */
  lemma PolicyMeans(p: AppPolicy, e: Evidence, t: int)
    requires Valid(p)
    ensures EvidenceReason(p, e, t) == Fine <==> PolicyDemands(p, e, t)
  {
  }

  /** And the reason it gives names the first proof that is missing, too weak or too old. */
  lemma ReasonsMean(p: AppPolicy, e: Evidence, t: int)
    requires Valid(p)
    ensures var why := EvidenceReason(p, e, t);
      && (why == PasswordRequired ==> !Proved(e.primary, t))
      && (why == PasswordExpired ==>
         Proved(e.primary, t) && p.mode == MaxAge && !NoOlder(e.primary, Some(p.primaryMaxAge), t))
      && (why == FactorRequired ==> p.factor != Password && !SecondFactor(e, t))
      && (why == PasskeyRequired ==> p.factor == Passkey && Proved(e.factor, t) && e.how != WebAuthn)
      && (why == FactorExpired ==>
         SecondFactor(e, t) && p.factorMaxAge > 0 && !NoOlder(e.factor, Some(p.factorMaxAge), t))
  {
  }

  /** A request is met exactly by evidence that has what it demands; a fresh one by none already there. */
  lemma RequestMeans(r: AuthRequest, e: Evidence, t: int)
    ensures RequestMet(r, e, t) <==> !r.anew && RequestDemands(r, e, t)
  {
  }

  lemma LastingMeans(r: AuthRequest, p: AppPolicy, e: Evidence, t: int)
    requires Valid(p)
    ensures Satisfied(Lasting(r, p), e, t) <==> PolicyDemands(p, e, t) && RequestDemands(r, e, t)
  {
    PolicyMeans(p, e, t);
    RequestMeans(r.(anew := false), e, t);
  }

  /**
   When a code is made: exactly when its id is new, the conditions of the insert hold, the policy as read
   and the request had what they demand when the client asked, the policy as it stands has it now, and
   freshness, wherever it is asked for, is shown by an interaction this session has just completed.
   */
  lemma CodeIsMadeIff(st: State, k: Ask, admitted: bool, now: int)
    requires Valid(k.read)
    ensures CreateCode(st, k, admitted, now).1 <==>
      && k.id !in st.ids && admitted
      && PolicyDemands(k.read, k.evidence, k.asked) && RequestDemands(k.request, k.evidence, k.asked)
      && Valid(st.own.policy) && PolicyDemands(st.own.policy, k.evidence, now)
      && (k.request.anew || k.read.mode == Fresh || st.own.policy.mode == Fresh ==> k.interaction.Some?)
      && (k.interaction.Some? ==> BoundTo(st, k.interaction.value, k.session, now))
      && (st.own.policy.mode == Fresh ==>
            k.evidence.primary.Some? && st.interactions[k.interaction.value].created <= k.evidence.primary.value)
  {
    PolicyMeans(k.read, k.evidence, k.asked);
    RequestMeans(k.request.(anew := false), k.evidence, k.asked);
    if Valid(st.own.policy) {
      PolicyMeans(st.own.policy, k.evidence, now);
    }
  }

  /** What is stored with it: whose it is, under which revisions, and for a minute from the asking. */
  lemma CodeIsStored(st: State, k: Ask, admitted: bool, now: int)
    requires CreateCode(st, k, admitted, now).1
    ensures var st' := CreateCode(st, k, admitted, now).0;
      && k.id in st'.codes && k.id in st'.ids && st'.codes - {k.id} == st.codes - {k.id}
      && st'.tokens == st.tokens && st'.own == st.own && st'.app == st.app
      && st'.interactions == (if k.interaction.Some? then st.interactions - {k.interaction.value} else st.interactions)
      && var c := st'.codes[k.id];
         && c.session == k.session && c.request == k.request && c.evidence == k.evidence && !c.used
         && c.app == st.app && c.revision == st.own.revision && c.roles == st.own.roles
         && c.created == now && c.expiresAt == k.asked + 60 * SECOND
  {
  }

  /** Every live token, after any history: its login had proved what the policy in force and its request demand. */
  lemma LiveTokensHadTheProofs(app: AppId, policy: AppPolicy, moments: seq<Moment>, from: int, to: int, j: Jti)
    requires Valid(policy) && Monotone(moments, from, to) && j in Run(Initial(app, policy), moments).tokens
    ensures var st := Run(Initial(app, policy), moments);
      var tk := st.tokens[j];
      PolicyDemands(st.own.policy, tk.code.evidence, tk.issued)
        && RequestDemands(tk.code.request, tk.code.evidence, tk.issued)
  {
    var st := Run(Initial(app, policy), moments);
    LiveTokensMetThePolicy(app, policy, moments, from, to, j);
    PoliciesStayValid(Initial(app, policy), moments);
    LastingMeans(st.tokens[j].code.request, st.own.policy, st.tokens[j].code.evidence, st.tokens[j].issued);
  }

  /**
   When a token is issued for a code, after any history: exactly when the code is this session's, has
   been spent, is not yet a minute old, was made under this record and its revisions, and the login has
   what the policy and the request demand at this instant.
   */
  lemma TokenIsIssuedIff(app: AppId, policy: AppPolicy, moments: seq<Moment>, from: int, to: int, j: Jti, id: CodeId,
      session: SessionId, admitted: bool, t: int)
    requires Valid(policy) && Monotone(moments, from, to) && to <= t
    ensures var st := Run(Initial(app, policy), moments);
      Record(st, j, id, session, admitted, t).1 <==>
        && j !in st.tokens && admitted && id in st.codes && var c := st.codes[id];
        && c.session == session && c.used && t < c.expiresAt
        && c.app == st.app && c.revision == st.own.revision && c.roles == st.own.roles
        && PolicyDemands(st.own.policy, c.evidence, t) && RequestDemands(c.request, c.evidence, t)
  {
    var st := Run(Initial(app, policy), moments);
    ExchangeMeetsCurrentRequirements(app, policy, moments, from, to, id, session, t);
    PoliciesStayValid(Initial(app, policy), moments);
    if id in st.codes {
      LastingMeans(st.codes[id].request, st.own.policy, st.codes[id].evidence, t);
    }
  }

  /** A policy edit is accepted exactly on the current record and for a policy that makes sense. */
  lemma PolicyEditAcceptedIff(st: State, p: AppPolicy, record: nat)
    ensures SetPolicy(st, p, record).1 <==>
      && record == st.own.record
      && (p.mode == MaxAge || p.mode == Reuse || p.mode == Fresh)
         && (p.factor == Password || p.factor == Mfa || p.factor == Passkey)
      && (if p.mode == MaxAge then 0 < p.primaryMaxAge <= 2_147_483_647 else p.primaryMaxAge == 0)
      && (if p.factor == Password then p.factorMaxAge == 0 else 0 <= p.factorMaxAge <= 2_147_483_647)
  {
  }

  /** Only valid policies are ever stored for the client. */
  lemma {:induction false} PoliciesStayValid(st: State, moments: seq<Moment>)
    requires Valid(st.own.policy)
    ensures Valid(Run(st, moments).own.policy)
    decreases |moments|
  {
    if moments != [] {
      PoliciesStayValid(Step(st, moments[0].event, moments[0].now), moments[1..]);
    }
  }

  // ---- a code is redeemed once ----------------------------------------------------------------------

  predicate IdsKnown(st: State) {
    forall id :: id in st.codes ==> id in st.ids
  }

  /** How often the code could still be spent. */
  function Left(st: State, id: CodeId): nat {
    if id in st.codes then (if st.codes[id].used then 0 else 1) else if id in st.ids then 0 else 1
  }

  /** How often the run spends it. */
  function Spends(st: State, moments: seq<Moment>, id: CodeId): nat
    decreases |moments|
  {
    if moments == [] then 0
    else
      var Moment(ev, now) := moments[0];
      (if ev == Consume(id) && Spend(st, id, now).1 then 1 else 0) + Spends(Step(st, ev, now), moments[1..], id)
  }

  lemma StepSpends(st: State, ev: Event, now: int, id: CodeId)
    requires IdsKnown(st)
    ensures IdsKnown(Step(st, ev, now))
    ensures (if ev == Consume(id) && Spend(st, id, now).1 then 1 else 0) + Left(Step(st, ev, now), id) <= Left(st, id)
  {
  }

  lemma {:induction false} RunSpends(st: State, moments: seq<Moment>, id: CodeId)
    requires IdsKnown(st)
    ensures Spends(st, moments, id) + Left(Run(st, moments), id) <= Left(st, id)
    decreases |moments|
  {
    if moments != [] {
      StepSpends(st, moments[0].event, moments[0].now, id);
      RunSpends(Step(st, moments[0].event, moments[0].now), moments[1..], id);
    }
  }

  /** On every run, with any clock, a code is redeemed at most once. */
  lemma SpentAtMostOnce(app: AppId, policy: AppPolicy, moments: seq<Moment>, id: CodeId)
    ensures Spends(Initial(app, policy), moments, id) <= 1
  {
    RunSpends(Initial(app, policy), moments, id);
  }

  // ---- the store ------------------------------------------------------------------------------------

  /** The same on stored rows: a code being written collects its fields, and a refusal rolls back. */
  class CodeStore {
    var st: State

    constructor (app: AppId, policy: AppPolicy)
      ensures st == Initial(app, policy)
    {
      st := Initial(app, policy);
    }

    method CreateAuthorizationCode(k: Ask, admitted: bool, now: int) returns (ok: bool)
      modifies this
      ensures (st, ok) == CreateCode(old(st), k, admitted, now)
    {
      var need := WithAppPolicy(k.request, k.read);
      if k.interaction.Some? {
        need := need.(anew := false);
      }
      if !Satisfied(need, k.evidence, k.asked) || k.id in st.ids {
        return false;
      }
      var item := Code(k.session, k.request, k.evidence, "", 0, 0, None, k.asked, now, k.asked + CODE_TTL, false);
      if need.maxAge.Some? {
        item := item.(until := Some(k.evidence.primary.value + need.maxAge.value * SECOND));
      }
      var checked;
      checked, item := CheckCodeAppAuthentication(item, k.interaction, now);
      if !checked {
        return false;
      }
      if k.interaction.Some? && !BoundTo(st, k.interaction.value, k.session, now) {
        return false;
      }
      if !admitted {
        return false;
      }
      var rows := if k.interaction.Some? then st.interactions - {k.interaction.value} else st.interactions;
      st := st.(codes := st.codes[k.id := item], ids := st.ids + {k.id}, interactions := rows);
      return true;
    }

    /** Re-checks the evidence under the writer lock and stamps revision and deadline on the code. */
    method CheckCodeAppAuthentication(code: Code, interaction: Option<Hash>, now: int) returns (ok: bool, stamped: Code)
      ensures ok <==>
        && Valid(st.own.policy) && EvidenceReason(st.own.policy, code.evidence, now) == Fine
        && (st.own.policy.mode == Fresh ==>
              interaction.Some? && BoundTo(st, interaction.value, code.session, now) && code.evidence.primary.Some?
              && st.interactions[interaction.value].created <= code.evidence.primary.value)
      ensures ok ==>
        stamped == code.(app := st.app, revision := st.own.revision, roles := st.own.roles,
          until := Earlier(Deadline(st.own.policy, code.evidence), code.until))
    {
      stamped := code.(app := st.app, revision := st.own.revision, roles := st.own.roles);
      if !Valid(st.own.policy) || EvidenceReason(st.own.policy, code.evidence, now) != Fine {
        return false, stamped;
      }
      if st.own.policy.mode == Fresh {
        if interaction.None? || !BoundTo(st, interaction.value, code.session, now) {
          return false, stamped;
        }
        if code.evidence.primary.None? || code.evidence.primary.value < st.interactions[interaction.value].created {
          return false, stamped;
        }
      }
      var at := Deadline(st.own.policy, code.evidence);
      if at.Some? && (stamped.until.None? || at.value < stamped.until.value) {
        stamped := stamped.(until := at);
      }
      return true, stamped;
    }

    /** After an accepted edit that changed anything, nothing granted under another policy is left. */
    method SetAppAuthenticationPolicy(p: AppPolicy, record: nat) returns (ok: bool)
      modifies this
      ensures (st, ok) == SetPolicy(old(st), p, record)
      ensures ok ==> st.own.policy == p && Valid(p)
      ensures old(st).own.policy != st.own.policy ==>
        st.codes == map[] && st.tokens == map[] && st.interactions == map[]
    {
      if !Valid(p) || st.own.record != record {
        return false;
      }
      if st.own.policy != p {
        st := st.(own := st.own.(policy := p, revision := st.own.revision + 1, record := st.own.record + 1));
        st := st.(interactions := map[]);
        st := st.(codes := map[]);
        st := st.(tokens := map[]);
      }
      return true;
    }

    /** Whatever the answer, the code cannot be spent afterwards. */
    method ConsumeAuthorizationCode(id: CodeId, now: int) returns (spent: bool)
      modifies this
      ensures (st, spent) == Spend(old(st), id, now)
      ensures spent <==> Spendable(old(st), id, now)
      ensures forall t :: now <= t ==> !Spendable(st, id, t)
      ensures forall i, t :: i != id ==> (Spendable(st, i, t) <==> Spendable(old(st), i, t))
    {
      spent := id in st.codes && !st.codes[id].used && now < st.codes[id].expiresAt;
      if spent {
        st := st.(codes := st.codes[id := st.codes[id].(used := true)]);
      }
    }

    /** A token is recorded exactly when its code is presented and the login still meets what is asked now. */
    method RecordIssuedToken(j: Jti, id: CodeId, session: SessionId, admitted: bool, now: int) returns (ok: bool)
      requires Sound(st, now)
      modifies this
      ensures (st, ok) == Record(old(st), j, id, session, admitted, now)
      ensures ok <==>
        && j !in old(st).tokens && admitted && Presented(old(st), id, session, now)
        && Satisfied(Lasting(st.codes[id].request, st.own.policy), st.codes[id].evidence, now)
      ensures Sound(st, now)
    {
      RecordKeeps(st, j, id, session, admitted, now);
      if Presented(st, id, session, now) {
        ExchangeIsExact(st, st.codes[id], now);
      }
      ok := j !in st.tokens && admitted && Exchanges(st, id, session, now);
      if ok {
        st := st.(tokens := st.tokens[j := Token(st.codes[id], now)]);
      }
    }
  }

  // ---- reading the request --------------------------------------------------------------------------

  type Query = map<string, seq<string>>

  datatype Parsed = Accepted(request: AuthRequest) | Malformed

  predicate Digit(c: char) { '0' <= c <= '9' }

  predicate AllDigits(s: string) { forall i :: 0 <= i < |s| ==> Digit(s[i]) }

  function DecimalValue(s: string): nat
    requires AllDigits(s)
  {
    if s == "" then 0 else 10 * DecimalValue(s[..|s| - 1]) + (s[|s| - 1] as int - '0' as int)
  }

  function Render(n: nat): (s: string)
    ensures AllDigits(s) && s != ""
  {
    var last := [('0' as int + n % 10) as char];
    if n < 10 then last else Render(n / 10) + last
  }

  lemma {:induction false} RenderedAgesReadBack(n: nat)
    ensures DecimalValue(Render(n)) == n
  {
    var last := [('0' as int + n % 10) as char];
    if n >= 10 {
      RenderedAgesReadBack(n / 10);
      var s := Render(n);
      assert s[..|s| - 1] == Render(n / 10);
    } else {
      assert last[..0] == "";
    }
  }

  predicate ValidAge(raw: string) {
    raw != "" && AllDigits(raw) && DecimalValue(raw) <= MAX_AGE
  }

  /** `strconv.ParseInt(raw, 10, 32)` after the digit scan. */
  method ParseAge(raw: string) returns (age: Option<int>)
    ensures age.Some? <==> ValidAge(raw)
    ensures age.Some? ==> age.value == DecimalValue(raw)
  {
    if raw == "" {
      return None;
    }
    for i := 0 to |raw|
      invariant AllDigits(raw[..i])
    {
      if !Digit(raw[i]) {
        return None;
      }
    }
    assert raw[..|raw|] == raw;
    var value := 0;
    for i := 0 to |raw|
      invariant value == DecimalValue(raw[..i])
    {
      assert raw[..i + 1][..i] == raw[..i];
      value := 10 * value + (raw[i] as int - '0' as int);
    }
    assert raw[..|raw|] == raw;
    return if value <= MAX_AGE then Some(value) else None;
  }

  const PASSWORD_ACR := "urn:kysignon:acr:password"
  const MFA_ACR := "urn:kysignon:acr:mfa"

  predicate AcrChoices(choices: seq<string>) {
    choices != [] && forall v :: v in choices ==> v == PASSWORD_ACR || v == MFA_ACR
  }

  /** Which queries are understood: nothing repeated, no unknown assurance, no alternate transport. */
  ghost predicate Understood(q: Query, fields: string -> seq<string>) {
    && (forall k :: k in q ==> |q[k]| == 1)
    && ("prompt" in q ==> q["prompt"] == ["none"] || q["prompt"] == ["login"])
    && ("max_age" in q ==> ValidAge(q["max_age"][0]))
    && ("acr_values" in q ==> AcrChoices(fields(q["acr_values"][0])))
    && "request" !in q && "request_uri" !in q && "claims" !in q
  }

  /** `fields` splits around white space. */
  method ParseAuthenticationRequest(q: Query, fields: string -> seq<string>) returns (r: Parsed)
    ensures r.Accepted? <==> Understood(q, fields)
    ensures r.Accepted? ==>
      && r.request.app == NO_POLICY
      && (r.request.silent <==> "prompt" in q && q["prompt"] == ["none"])
      && (r.request.anew <==>
            || ("prompt" in q && q["prompt"] == ["login"])
            || ("max_age" in q && DecimalValue(q["max_age"][0]) == 0))
      && r.request.maxAge ==
           (if "max_age" in q && DecimalValue(q["max_age"][0]) > 0 then Some(DecimalValue(q["max_age"][0])) else None)
      && (r.request.acr == NoAcr <==> "acr_values" !in q)
      && (r.request.acr == MfaAcr <==> "acr_values" in q && fields(q["acr_values"][0])[0] == MFA_ACR)
  {
    var p := AuthRequest(false, false, None, NoAcr, NO_POLICY);
    var keys := q.Keys;
    while keys != {}
      invariant keys <= q.Keys
      invariant forall k :: k in q && k !in keys ==> |q[k]| == 1
    {
      var k :| k in keys;
      if |q[k]| != 1 {
        return Malformed;
      }
      keys := keys - {k};
    }
    if "prompt" in q {
      var prompt := q["prompt"][0];
      assert q["prompt"] == [prompt];
      if prompt == "none" {
        p := p.(silent := true);
      } else if prompt == "login" {
        p := p.(anew := true);
      } else {
        return Malformed;
      }
    }
    if "max_age" in q {
      var age := ParseAge(q["max_age"][0]);
      if age.None? {
        return Malformed;
      }
      p := if age.value == 0 then p.(anew := true) else p.(maxAge := age);
    }
    if "acr_values" in q {
      var choices := fields(q["acr_values"][0]);
      if choices == [] {
        return Malformed;
      }
      for i := 0 to |choices|
        invariant forall j :: 0 <= j < i ==> choices[j] == PASSWORD_ACR || choices[j] == MFA_ACR
      {
        if choices[i] != PASSWORD_ACR && choices[i] != MFA_ACR {
          assert choices[i] in choices;
          return Malformed;
        }
      }
      p := p.(acr := if choices[0] == MFA_ACR then MfaAcr else PasswordAcr);
    }
    if "request" in q || "request_uri" in q || "claims" in q {
      return Malformed;
    }
    return Accepted(p);
  }
}
