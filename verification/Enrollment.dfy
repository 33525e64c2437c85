/**
 The MFA enrollment policy engine: overlapping policies, the factors they leave a user, and the
 deadlines they set. Policies apply to everyone, to administrators and delegates, and to groups.
 */
module Enrollment {
  import opened Optional

  type UserId = string
  type GroupId = string

  /** One bit per factor: 1 totp, 2 push, 4 webauthn. */
  type Mask = bv3

  datatype Factor = Totp | Push | WebAuthn

  const FACTORS: set<Factor> := {Totp, Push, WebAuthn}

  lemma EveryFactor(f: Factor)
    ensures f in FACTORS
  {
    match f
    case Totp =>
    case Push =>
    case WebAuthn =>
  }

  function Bit(f: Factor): Mask {
    match f
    case Totp => 1
    case Push => 2
    case WebAuthn => 4
  }

  function BitIf(on: bool, bit: Mask): Mask { if on then bit else 0 }

  /** The stored column for a set of factors. */
  function Bits(fs: set<Factor>): Mask {
    BitIf(Totp in fs, 1) + BitIf(Push in fs, 2) + BitIf(WebAuthn in fs, 4)
  }

  // ---- factor masks ---------------------------------------------------------------------------------

  const METHODS: seq<string> := ["totp", "push", "webauthn"]

  function FactorBit(name: string): Mask {
    if name == "totp" then 1 else if name == "push" then 2 else if name == "webauthn" then 4 else 0
  }

  method FactorNames(mask: Mask) returns (names: seq<string>)
    ensures forall m :: m in names <==> m in METHODS && mask & FactorBit(m) != 0
    ensures forall i, j :: 0 <= i < j < |names| ==> names[i] != names[j]
  {
    names := [];
    for k := 0 to |METHODS|
      invariant forall m :: m in names <==> m in METHODS[..k] && mask & FactorBit(m) != 0
      invariant forall i, j :: 0 <= i < j < |names| ==> names[i] != names[j]
    {
      if mask & FactorBit(METHODS[k]) != 0 {
        names := names + [METHODS[k]];
      }
    }
    assert METHODS[..|METHODS|] == METHODS;
  }

  /** A list is a policy's factor set when it names known factors, each once, and at least one. */
  predicate ValidMethods(methods: seq<string>) {
    && methods != []
    && (forall i :: 0 <= i < |methods| ==> FactorBit(methods[i]) != 0)
    && (forall i, j :: 0 <= i < j < |methods| ==> methods[i] != methods[j])
  }

  method MaskOf(methods: seq<string>) returns (mask: Mask)
    ensures mask != 0 <==> ValidMethods(methods)
    ensures mask != 0 ==> forall m :: m in METHODS ==> (mask & FactorBit(m) != 0 <==> m in methods)
  {
    mask := 0;
    for k := 0 to |methods|
      invariant forall i :: 0 <= i < k ==> FactorBit(methods[i]) != 0
      invariant forall i, j :: 0 <= i < j < k ==> methods[i] != methods[j]
      invariant mask != 0 <==> k > 0
      invariant mask & 1 != 0 <==> "totp" in methods[..k]
      invariant mask & 2 != 0 <==> "push" in methods[..k]
      invariant mask & 4 != 0 <==> "webauthn" in methods[..k]
    {
      var b := FactorBit(methods[k]);
      if b == 0 || mask & b != 0 {
        return 0;
      }
      mask := mask | b;
    }
  }

  /** Names and masks round-trip. */
  method MaskRoundTrip(mask: Mask) returns (same: Mask)
    requires mask != 0
    ensures same == mask
  {
    var names := FactorNames(mask);
    assert "totp" in METHODS && "push" in METHODS && "webauthn" in METHODS by {
      assert METHODS[0] == "totp" && METHODS[1] == "push" && METHODS[2] == "webauthn";
    }
    assert FactorBit("totp") == 1 && FactorBit("push") == 2 && FactorBit("webauthn") == 4;
    same := MaskOf(names);
  }

  // ---- intersecting policies ------------------------------------------------------------------------

  function Min(a: Mask, b: Mask): Mask { if a < b then a else b }

  /** `MIN(allowed_mask & bit)` over the rows. */
  function MinBit(rows: seq<Mask>, bit: Mask): Mask
    requires rows != []
  {
    if |rows| == 1 then rows[0] & bit else Min(rows[0] & bit, MinBit(rows[1..], bit))
  }

  /** The view's column: one minimum per bit, added up, and every factor when no row applies. */
  function MinSum(rows: seq<Mask>): Mask {
    if rows == [] then 7 else MinBit(rows, 1) + MinBit(rows, 2) + MinBit(rows, 4)
  }

  function AndAll(rows: seq<Mask>): Mask {
    if rows == [] then 7 else rows[0] & AndAll(rows[1..])
  }

  lemma MinIsAndPerBit(a: Mask, b: Mask)
    ensures Min(a & 1, b & 1) == (a & b) & 1
    ensures Min(a & 2, b & 2) == (a & b) & 2
    ensures Min(a & 4, b & 4) == (a & b) & 4
  {
  }

  lemma {:induction false} MinBitIsAnd(rows: seq<Mask>)
    requires rows != []
    ensures MinBit(rows, 1) == AndAll(rows) & 1
    ensures MinBit(rows, 2) == AndAll(rows) & 2
    ensures MinBit(rows, 4) == AndAll(rows) & 4
  {
    if |rows| == 1 {
      assert rows[1..] == [];
      assert rows[0] & 7 == rows[0];
    } else {
      MinBitIsAnd(rows[1..]);
      MinIsAndPerBit(rows[0], AndAll(rows[1..]));
      var rest := AndAll(rows[1..]);
      assert Min(rows[0] & 1, rest & 1) == (rows[0] & rest) & 1;
      assert MinBit(rows, 1) == Min(rows[0] & 1, MinBit(rows[1..], 1));
    }
  }

  lemma BitsAddUp(m: Mask)
    ensures (m & 1) + (m & 2) + (m & 4) == m
  {
  }

  /** The sum of per-bit minima is the intersection of all the policies. */
  lemma MinSumIsIntersection(rows: seq<Mask>)
    ensures MinSum(rows) == AndAll(rows)
  {
    if rows != [] {
      MinBitIsAnd(rows);
      BitsAddUp(AndAll(rows));
    }
  }

  // ---- the tables -----------------------------------------------------------------------------------

  datatype Scope = Organization | Administrators | OfGroup(group: GroupId)
  datatype Policy = Policy(required: bool, allowed: set<Factor>, grace: nat, revision: nat)
  datatype Person = Person(admin: bool, active: bool)

  datatype Delegation = Helpdesk | Auditor | AppOwner(app: string)

  /** `delegations` holds the delegation rows user by user; a user without any may be missing from it. */
  datatype Db = Db(
    people: map<UserId, Person>,
    delegations: map<UserId, set<Delegation>>,
    members: map<(GroupId, UserId), Option<int>>,
    policies: map<Scope, Policy>,
    deadlines: map<(UserId, Scope), int>,
    factors: set<(UserId, Factor)>)

  function RowsOf(db: Db, u: UserId): set<Delegation> {
    if u in db.delegations then db.delegations[u] else {}
  }

  predicate Delegated(db: Db, u: UserId) { RowsOf(db, u) != {} }

  predicate InScope(db: Db, u: UserId, s: Scope) {
    match s
    case Organization => u in db.people
    case Administrators => u in db.people && (db.people[u].admin || Delegated(db, u))
    case OfGroup(g) => (g, u) in db.members
  }

  /** A required policy that binds the user. */
  predicate Applies(db: Db, u: UserId, s: Scope) {
    s in db.policies && db.policies[s].required && InScope(db, u, s)
  }

  predicate Required(db: Db, u: UserId) {
    exists s :: s in db.policies && Applies(db, u, s)
  }

  /** The factors every applicable policy permits. */
  function AllowedFactors(db: Db, u: UserId): set<Factor> {
    set f | f in FACTORS && forall s :: s in db.policies && Applies(db, u, s) ==> f in db.policies[s].allowed
  }

  lemma {:induction false} AndAllBit(rows: seq<Mask>, f: Factor)
    ensures AndAll(rows) & Bit(f) != 0 <==> forall i :: 0 <= i < |rows| ==> rows[i] & Bit(f) != 0
  {
    if rows != [] {
      AndAllBit(rows[1..], f);
      AndBit(rows[0], AndAll(rows[1..]), Bit(f));
      assert forall i :: 0 < i < |rows| ==> rows[i] == rows[1..][i - 1];
    }
  }

  lemma AndBit(a: Mask, b: Mask, bit: Mask)
    requires bit == 1 || bit == 2 || bit == 4
    ensures (a & b) & bit != 0 <==> a & bit != 0 && b & bit != 0
  {
  }

  lemma BitsDecode(m: Mask, fs: set<Factor>)
    requires forall f: Factor :: f in fs <==> m & Bit(f) != 0
    ensures m == Bits(fs)
  {
    BitsAddUp(m);
    assert Totp in fs <==> m & 1 != 0;
    assert Push in fs <==> m & 2 != 0;
    assert WebAuthn in fs <==> m & 4 != 0;
    OneBit(m);
  }

  lemma OneBit(m: Mask)
    ensures m & 1 == BitIf(m & 1 != 0, 1) && m & 2 == BitIf(m & 2 != 0, 2) && m & 4 == BitIf(m & 4 != 0, 4)
  {
  }

  lemma BitsHave(fs: set<Factor>, f: Factor)
    ensures Bits(fs) & Bit(f) != 0 <==> f in fs
  {
  }

  function MasksOf(db: Db, scopes: seq<Scope>): seq<Mask>
    requires forall i :: 0 <= i < |scopes| ==> scopes[i] in db.policies
  {
    seq(|scopes|, i requires 0 <= i < |scopes| => Bits(db.policies[scopes[i]].allowed))
  }

  /**
   The stored view, over the applicable policies' rows in any order: the sum of per-bit minima is
   the mask of the factors every applicable policy permits, and zero exactly when there is none.
   */
  lemma ViewComputesAllowedFactors(db: Db, u: UserId, scopes: seq<Scope>)
    requires forall i :: 0 <= i < |scopes| ==> scopes[i] in db.policies
    requires forall s :: s in scopes <==> Applies(db, u, s)
    ensures MinSum(MasksOf(db, scopes)) == Bits(AllowedFactors(db, u))
    ensures MinSum(MasksOf(db, scopes)) == 0 <==> AllowedFactors(db, u) == {}
  {
    var rows := MasksOf(db, scopes);
    MinSumIsIntersection(rows);
    forall f: Factor ensures f in AllowedFactors(db, u) <==> AndAll(rows) & Bit(f) != 0 {
      AndAllBit(rows, f);
      forall i | 0 <= i < |rows| ensures rows[i] & Bit(f) != 0 <==> f in db.policies[scopes[i]].allowed {
        BitsHave(db.policies[scopes[i]].allowed, f);
      }
      assert forall i :: 0 <= i < |scopes| ==> scopes[i] in scopes;
    }
    BitsDecode(AndAll(rows), AllowedFactors(db, u));
  }

  // ---- transactions ---------------------------------------------------------------------------------

  datatype Outcome = Ok | Missing | Conflict | Incompatible | NeedsAdministrator | LastFactor | NoSuchApp

  datatype Method = Unset | Recovery | Used(factor: Factor)

  datatype Session = Session(
    user: UserId,
    enrollmentOnly: bool,
    expiresAt: int,
    primaryAt: Option<int>,
    factorAt: Option<int>,
    factorBy: Method)

  const RECENT := 300

  predicate Recent(at: Option<int>, now: int) {
    at.Some? && now - RECENT < at.value <= now
  }

  /** Someone who could undo the change is there: a signed-in administrator the policies still admit. */
  predicate CanActivate(db: Db, session: Option<Session>, now: int) {
    && session.Some? && var s := session.value;
    && s.user in db.people && db.people[s.user].admin && db.people[s.user].active
    && !s.enrollmentOnly && now < s.expiresAt
    && (Required(db, s.user) ==>
          && s.factorBy.Used? && (s.user, s.factorBy.factor) in db.factors
             && s.factorBy.factor in AllowedFactors(db, s.user)
          && Recent(s.primaryAt, now) && Recent(s.factorAt, now))
  }

  /** `INSERT OR IGNORE`: one user's missing deadlines in these scopes are set, the others stay. */
  function SetMissing(db: Db, u: UserId, scopes: set<Scope>, now: int): Db {
    db.(deadlines := (map p | p in (set s | s in scopes && Applies(db, u, s) :: (u, s)) ::
      now + db.policies[p.1].grace) + db.deadlines)
  }

  /** The upsert after a policy edit: every applicable deadline is set, and none moves later. */
  function Tighten(db: Db, now: int): Db {
    db.(deadlines := db.deadlines + map p | p in (set u, s | u in db.people && s in db.policies
      && Applies(db, u, s) :: (u, s))
      :: if p in db.deadlines && db.deadlines[p] < now + db.policies[p.1].grace then db.deadlines[p]
        else now + db.policies[p.1].grace)
  }

  function CreateUser(db: Db, u: UserId, person: Person, now: int): (Db, Outcome) {
    if u in db.people then (db, Conflict)
    else (SetMissing(db.(people := db.people[u := person]), u, db.policies.Keys, now), Ok)
  }

  function SetRole(db: Db, u: UserId, person: Person, now: int): (Db, Outcome) {
    if u !in db.people then (db, Missing)
    else
      var tx := db.(people := db.people[u := person]);
      if AllowedFactors(tx, u) == {} then (db, Incompatible) else (SetMissing(tx, u, tx.policies.Keys, now), Ok)
  }

  predicate Known(row: Delegation, apps: set<string>) {
    row.AppOwner? ==> row.app in apps
  }

  function WithDelegations(db: Db, u: UserId, rows: set<Delegation>): Db {
    db.(delegations := db.delegations[u := rows])
  }

  function Rows(rows: seq<Delegation>): set<Delegation> {
    set i | 0 <= i < |rows| :: rows[i]
  }

  /** Replaces a user's delegations; holding any brings the administrators' policy. */
  function SetDelegated(db: Db, u: UserId, rows: seq<Delegation>, apps: set<string>, now: int): (Db, Outcome) {
    var tx := WithDelegations(db, u, Rows(rows));
    if u !in db.people then (db, Missing)
    else if rows == [] then (tx, Ok)
    else if !Known(rows[0], apps) then (db, NoSuchApp)
    else if AllowedFactors(tx, u) == {} then (db, Incompatible)
    else if exists i :: 0 <= i < |rows| && !Known(rows[i], apps) then (db, NoSuchApp)
    else (SetMissing(tx, u, {Administrators}, now), Ok)
  }

  /** An app record goes, deleted or linked into another, and the rows of its owners go with it. */
  function DropRecord(db: Db, app: string): Db {
    db.(delegations := map u | u in db.delegations :: db.delegations[u] - {AppOwner(app)})
  }

  function CreateGroup(db: Db, g: GroupId): (Db, Outcome) {
    if OfGroup(g) in db.policies then (db, Conflict)
    else (db.(policies := db.policies[OfGroup(g) := Policy(false, FACTORS, 0, 1)]), Ok)
  }

  function DeleteGroup(db: Db, g: GroupId, session: Option<Session>, now: int): (Db, Outcome) {
    if OfGroup(g) !in db.policies then (db, Missing)
    else if db.policies[OfGroup(g)].required && !CanActivate(db, session, now) then (db, NeedsAdministrator)
    else (db.(policies := db.policies - {OfGroup(g)},
              members := (map p | p in db.members && p.0 != g :: db.members[p]),
              deadlines := (map p | p in db.deadlines && p.1 != OfGroup(g) :: db.deadlines[p])), Ok)
  }

  /** The membership row as written; inserting one fires the trigger. */
  function WithMembership(db: Db, g: GroupId, u: UserId, member: bool, until: Option<int>, now: int): Db {
    var tx := db.(members := if member then db.members[(g, u) := until] else db.members - {(g, u)});
    if member && (g, u) !in db.members then SetMissing(tx, u, {OfGroup(g)}, now) else tx
  }

  function SetMember(db: Db, g: GroupId, u: UserId, member: bool, until: Option<int>, session: Option<Session>,
      now: int): (Db, Outcome) {
    if OfGroup(g) !in db.policies || u !in db.people then (db, Missing)
    else
      var changed := if member then (g, u) !in db.members || db.members[(g, u)] != until else (g, u) in db.members;
      var tx' := WithMembership(db, g, u, member, until, now);
      if changed && db.policies[OfGroup(g)].required && AllowedFactors(tx', u) == {} then (db, Incompatible)
      else if changed && db.policies[OfGroup(g)].required && !CanActivate(tx', session, now)
        then (db, NeedsAdministrator)
      else (tx', Ok)
  }

  function ExpireMember(db: Db, g: GroupId, u: UserId): (Db, Outcome) {
    (db.(members := db.members - {(g, u)}), Ok)
  }

  predicate Compatible(db: Db) {
    forall u :: u in db.people && Required(db, u) ==> AllowedFactors(db, u) != {}
  }

  function WithPolicy(db: Db, s: Scope, p: Policy): Db {
    db.(policies := db.policies[s := p])
  }

  /** A written policy is rolled back if someone is left without a factor, and else dates its obligations. */
  function Dated(db: Db, tx: Db, now: int): (Db, Outcome) {
    if !Compatible(tx) then (db, Incompatible) else (Tighten(tx, now), Ok)
  }

  /** The edit itself, which the preview runs too and rolls back. */
  function EditPolicy(db: Db, s: Scope, required: bool, allowed: set<Factor>, grace: nat, revision: nat,
      now: int): (Db, Outcome) {
    if allowed == {} || grace > 7_776_000 || revision == 0 then (db, Incompatible)
    else if s !in db.policies || db.policies[s].revision != revision then (db, Conflict)
    else
      Dated(db, WithPolicy(db, s, Policy(required, allowed, grace, revision + 1)), now)
  }

  function SetPolicy(db: Db, s: Scope, required: bool, allowed: set<Factor>, grace: nat, revision: nat,
      session: Option<Session>, now: int): (Db, Outcome) {
    var (tx, r) := EditPolicy(db, s, required, allowed, grace, revision, now);
    if r.Ok? && !CanActivate(tx, session, now) then (db, NeedsAdministrator) else (tx, r)
  }

  function ResetMfa(db: Db, u: UserId): (Db, Outcome) {
    (db.(deadlines := (map p | p in db.deadlines :: if p.0 == u then 0 else db.deadlines[p]),
         factors := (set f | f in db.factors && f.0 != u)), Ok)
  }

  predicate Compliant(db: Db, u: UserId) {
    Required(db, u) && exists f :: f in db.factors && f.0 == u && f.1 in AllowedFactors(db, u)
  }

  function RemoveFactor(db: Db, u: UserId, factor: Factor): (Db, Outcome) {
    var tx := db.(factors := db.factors - {(u, factor)});
    if Compliant(db, u) && !Compliant(tx, u) then (db, LastFactor) else (tx, Ok)
  }

  function AddFactor(db: Db, u: UserId, factor: Factor): (Db, Outcome) {
    if u !in db.people then (db, Missing) else (db.(factors := db.factors + {(u, factor)}), Ok)
  }

  function DeleteUser(db: Db, u: UserId): (Db, Outcome) {
    (Db(db.people - {u}, db.delegations - {u}, (map p | p in db.members && p.1 != u :: db.members[p]), db.policies,
        (map p | p in db.deadlines && p.0 != u :: db.deadlines[p]), (set f | f in db.factors && f.0 != u)), Ok)
  }

  datatype Op =
    | CreateUserOp(user: UserId, person: Person)
    | RoleOp(user: UserId, person: Person)
    | DelegateOp(user: UserId, rows: seq<Delegation>, apps: set<string>)
    | DropRecordOp(app: string)
    | CreateGroupOp(group: GroupId)
    | DeleteGroupOp(group: GroupId, session: Option<Session>)
    | MemberOp(group: GroupId, user: UserId, member: bool, until: Option<int>, session: Option<Session>)
    | ExpireMemberOp(group: GroupId, user: UserId)
    | PolicyOp(scope: Scope, required: bool, allowed: set<Factor>, grace: nat, revision: nat, session: Option<Session>)
    | ResetOp(user: UserId)
    | AddFactorOp(user: UserId, factor: Factor)
    | RemoveFactorOp(user: UserId, factor: Factor)
    | DeleteUserOp(user: UserId)

  function Apply(db: Db, op: Op, now: int): (Db, Outcome) {
    match op
    case CreateUserOp(u, person) => CreateUser(db, u, person, now)
    case RoleOp(u, person) => SetRole(db, u, person, now)
    case DelegateOp(u, rows, apps) => SetDelegated(db, u, rows, apps, now)
    case DropRecordOp(app) => (DropRecord(db, app), Ok)
    case CreateGroupOp(g) => CreateGroup(db, g)
    case DeleteGroupOp(g, session) => DeleteGroup(db, g, session, now)
    case MemberOp(g, u, member, until, session) => SetMember(db, g, u, member, until, session, now)
    case ExpireMemberOp(g, u) => ExpireMember(db, g, u)
    case PolicyOp(s, required, allowed, grace, revision, session) => SetPolicy(db, s, required, allowed, grace,
      revision, session, now)
    case ResetOp(u) => ResetMfa(db, u)
    case AddFactorOp(u, factor) => AddFactor(db, u, factor)
    case RemoveFactorOp(u, factor) => RemoveFactor(db, u, factor)
    case DeleteUserOp(u) => DeleteUser(db, u)
  }

  // ---- what every reachable state keeps -------------------------------------------------------------

  const FRESH := Db(map[], map[], map[], map[Organization := Policy(false, FACTORS, 0, 1),
    Administrators := Policy(false, FACTORS, 0, 1)], map[], {})

  predicate WellFormed(db: Db) {
    && Organization in db.policies && Administrators in db.policies
    && (forall s :: s in db.policies ==> db.policies[s].allowed != {})
    && (forall p :: p in db.members ==> p.1 in db.people && OfGroup(p.0) in db.policies)
    && db.delegations.Keys <= db.people.Keys
  }

  /** A new administrator, bound only by these two policies, could still enroll something. */
  predicate AdministratorsAdmitted(db: Db)
    requires Organization in db.policies && Administrators in db.policies
  {
    db.policies[Organization].required && db.policies[Administrators].required ==>
      db.policies[Organization].allowed * db.policies[Administrators].allowed != {}
  }

  predicate NobodyLockedOut(db: Db) {
    forall u :: u in db.people ==> AllowedFactors(db, u) != {}
  }

  /** Every obligation has its own stored deadline. */
  ghost predicate EveryObligationDated(db: Db) {
    forall u, s :: Applies(db, u, s) ==> (u, s) in db.deadlines
  }

  ghost predicate Inv(db: Db) {
    WellFormed(db) && AdministratorsAdmitted(db) && NobodyLockedOut(db) && EveryObligationDated(db)
  }

  /** Whatever binds a user now already did, with the same factors. */
  ghost predicate BoundNoTighter(db: Db, db': Db, u: UserId) {
    forall s :: Applies(db', u, s) ==> Applies(db, u, s) && db'.policies[s].allowed == db.policies[s].allowed
  }

  /** Fewer applicable policies, none stricter, never take a factor away. */
  lemma FactorsOnlyGrow(db: Db, db': Db, u: UserId)
    requires BoundNoTighter(db, db', u)
    ensures AllowedFactors(db, u) <= AllowedFactors(db', u)
  {
  }

  lemma SetMissingEffect(db: Db, u: UserId, scopes: set<Scope>, now: int)
    ensures var db' := SetMissing(db, u, scopes, now);
      && (forall v, s :: Applies(db', v, s) <==> Applies(db, v, s))
      && (forall s :: s in scopes && Applies(db, u, s) ==> (u, s) in db'.deadlines)
      && (forall p :: p in db.deadlines ==> p in db'.deadlines && db'.deadlines[p] == db.deadlines[p])
  {
    var missing := set s | s in scopes && Applies(db, u, s) :: (u, s);
    assert forall s :: s in scopes && Applies(db, u, s) ==> (u, s) in missing;
  }

  /** Only these users may have become more bound, and each of them keeps a factor. */
  lemma StillAdmitted(db: Db, db': Db, changed: set<UserId>)
    requires NobodyLockedOut(db) && db'.people.Keys <= db.people.Keys + changed
    requires forall v :: v !in changed ==> BoundNoTighter(db, db', v)
    requires forall v :: v in changed && v in db'.people ==> AllowedFactors(db', v) != {}
    ensures NobodyLockedOut(db')
  {
    forall v | v in db'.people ensures AllowedFactors(db', v) != {} {
      if v !in changed {
        FactorsOnlyGrow(db, db', v);
      }
    }
  }

  /** Only these users may have new obligations, those are dated, and no needed deadline is dropped. */
  lemma StillDated(db: Db, db': Db, changed: set<UserId>)
    requires EveryObligationDated(db)
    requires forall v, s :: v !in changed && Applies(db', v, s) ==> Applies(db, v, s)
    requires forall v, s :: v in changed && Applies(db', v, s) ==> (v, s) in db'.deadlines
    requires forall v, s :: (v, s) in db.deadlines && Applies(db', v, s) ==> (v, s) in db'.deadlines
    ensures EveryObligationDated(db')
  {
  }

  lemma CreateUserKeeps(db: Db, u: UserId, person: Person, now: int)
    requires Inv(db)
    ensures Inv(CreateUser(db, u, person, now).0)
  {
    if u !in db.people {
      var tx := db.(people := db.people[u := person]);
      SetMissingEffect(tx, u, db.policies.Keys, now);
      var db' := SetMissing(tx, u, db.policies.Keys, now);
      assert forall g :: (g, u) in db.members ==> (g, u).1 in db.people;
      NewcomerAdmitted(db', u);
      StillAdmitted(db, db', {u});
      StillDated(db, db', {u});
    }
  }

  lemma RoleKeeps(db: Db, u: UserId, person: Person, now: int)
    requires Inv(db)
    ensures Inv(SetRole(db, u, person, now).0)
  {
    var tx := db.(people := db.people[u := person]);
    if u in db.people && AllowedFactors(tx, u) != {} {
      SetMissingEffect(tx, u, tx.policies.Keys, now);
      var db' := SetMissing(tx, u, tx.policies.Keys, now);
      FactorsOnlyGrow(tx, db', u);
      StillAdmitted(db, db', {u});
      StillDated(db, db', {u});
    }
  }

  lemma DelegateKeeps(db: Db, u: UserId, rows: seq<Delegation>, apps: set<string>, now: int)
    requires Inv(db)
    ensures Inv(SetDelegated(db, u, rows, apps, now).0)
  {
    var tx := WithDelegations(db, u, Rows(rows));
    if u in db.people && rows == [] {
      LooserKeeps(db, tx);
    } else if u in db.people {
      SetMissingEffect(tx, u, {Administrators}, now);
      var db' := SetMissing(tx, u, {Administrators}, now);
      FactorsOnlyGrow(tx, db', u);
      assert forall s :: s != Administrators && Applies(tx, u, s) ==> Applies(db, u, s);
      if AllowedFactors(tx, u) != {} {
        StillAdmitted(db, db', {u});
        StillDated(db, db', {u});
      }
    }
  }

  lemma DropRecordKeeps(db: Db, app: string)
    requires Inv(db)
    ensures Inv(DropRecord(db, app))
  {
    var db' := DropRecord(db, app);
    forall v ensures RowsOf(db', v) == RowsOf(db, v) - {AppOwner(app)} {
    }
    forall v ensures BoundNoTighter(db, db', v) {
      assert Delegated(db', v) ==> Delegated(db, v);
    }
    LooserKeeps(db, db');
  }

  /** An edit that adds no obligation and keeps the deadlines that remain needed keeps the invariant. */
  lemma LooserKeeps(db: Db, db': Db)
    requires Inv(db) && WellFormed(db') && AdministratorsAdmitted(db')
    requires db'.people.Keys <= db.people.Keys
    requires forall v :: BoundNoTighter(db, db', v)
    requires forall v, s :: (v, s) in db.deadlines && Applies(db', v, s) ==> (v, s) in db'.deadlines
    ensures Inv(db')
  {
    forall v, s | Applies(db', v, s) ensures Applies(db, v, s) {
      assert BoundNoTighter(db, db', v);
    }
    StillAdmitted(db, db', {});
    StillDated(db, db', {});
  }

  lemma MemberKeeps(db: Db, g: GroupId, u: UserId, member: bool, until: Option<int>, session: Option<Session>, now: int)
    requires Inv(db)
    ensures Inv(SetMember(db, g, u, member, until, session, now).0)
  {
    var (db', r) := SetMember(db, g, u, member, until, session, now);
    if r.Ok? {
      assert db' == WithMembership(db, g, u, member, until, now);
      if member && (g, u) !in db.members {
        NewMemberKeeps(db, g, u, until, now);
      } else {
        LooserKeeps(db, db');
      }
    }
  }

  /** Joining a group brings its policy, and nothing else, to the one who joins. */
  lemma NewMemberBound(db: Db, g: GroupId, u: UserId, until: Option<int>)
    ensures var tx := db.(members := db.members[(g, u) := until]);
      forall v, s :: Applies(tx, v, s) ==> Applies(db, v, s) || (v == u && s == OfGroup(g))
  {
  }

  lemma NewMemberKeeps(db: Db, g: GroupId, u: UserId, until: Option<int>, now: int)
    requires Inv(db) && (g, u) !in db.members && OfGroup(g) in db.policies && u in db.people
    requires var db' := WithMembership(db, g, u, true, until, now);
      db.policies[OfGroup(g)].required ==> AllowedFactors(db', u) != {}
    ensures Inv(WithMembership(db, g, u, true, until, now))
  {
    var tx := db.(members := db.members[(g, u) := until]);
    var db' := SetMissing(tx, u, {OfGroup(g)}, now);
    SetMissingEffect(tx, u, {OfGroup(g)}, now);
    NewMemberBound(db, g, u, until);
    if !db.policies[OfGroup(g)].required {
      FactorsOnlyGrow(db, db', u);
    }
    StillAdmitted(db, db', {u});
    StillDated(db, db', {u});
  }

  lemma ExpireMemberKeeps(db: Db, g: GroupId, u: UserId)
    requires Inv(db)
    ensures Inv(ExpireMember(db, g, u).0)
  {
    LooserKeeps(db, ExpireMember(db, g, u).0);
  }

  lemma CreateGroupKeeps(db: Db, g: GroupId)
    requires Inv(db)
    ensures Inv(CreateGroup(db, g).0)
  {
    if OfGroup(g) !in db.policies {
      LooserKeeps(db, CreateGroup(db, g).0);
    }
  }

  lemma DeleteGroupKeeps(db: Db, g: GroupId, session: Option<Session>, now: int)
    requires Inv(db)
    ensures Inv(DeleteGroup(db, g, session, now).0)
  {
    var (db', r) := DeleteGroup(db, g, session, now);
    if r.Ok? {
      forall v ensures BoundNoTighter(db, db', v) {
      }
      LooserKeeps(db, db');
    }
  }

  lemma DeleteUserKeeps(db: Db, u: UserId)
    requires Inv(db)
    ensures Inv(DeleteUser(db, u).0)
  {
    var db' := DeleteUser(db, u).0;
    forall v ensures BoundNoTighter(db, db', v) {
    }
    LooserKeeps(db, db');
  }

  lemma ResetKeeps(db: Db, u: UserId)
    requires Inv(db)
    ensures Inv(ResetMfa(db, u).0)
  {
    LooserKeeps(db, ResetMfa(db, u).0);
  }

  /** Enrolled factors play no part in the invariant. */
  lemma FactorsKeep(db: Db, factors: set<(UserId, Factor)>)
    requires Inv(db)
    ensures Inv(db.(factors := factors))
  {
    LooserKeeps(db, db.(factors := factors));
  }

  lemma TightenEffect(db: Db, now: int)
    requires WellFormed(db)
    ensures var db' := Tighten(db, now);
      && (forall v, s :: Applies(db', v, s) <==> Applies(db, v, s))
      && (forall v, s :: Applies(db, v, s) ==> (v, s) in db'.deadlines)
      && (forall p :: p in db.deadlines ==> p in db'.deadlines && db'.deadlines[p] <= db.deadlines[p])
  {
    var bound := set u, s | u in db.people && s in db.policies && Applies(db, u, s) :: (u, s);
    forall v, s | Applies(db, v, s) ensures (v, s) in bound {
      assert s.OfGroup? ==> (s.group, v).1 in db.people;
    }
  }

  /** The upsert to the second: the earlier of the stored date and the new one, and only where bound. */
  lemma TightenExactly(db: Db, now: int, u: UserId, s: Scope)
    requires WellFormed(db)
    ensures var db' := Tighten(db, now);
      if Applies(db, u, s) then
        && (u, s) in db'.deadlines
        && db'.deadlines[(u, s)] ==
             (if (u, s) in db.deadlines && db.deadlines[(u, s)] < now + db.policies[s].grace then db.deadlines[(u, s)]
               else now + db.policies[s].grace)
      else
        && ((u, s) in db'.deadlines <==> (u, s) in db.deadlines)
        && ((u, s) in db.deadlines ==> db'.deadlines[(u, s)] == db.deadlines[(u, s)])
  {
    var bound := set v, r | v in db.people && r in db.policies && Applies(db, v, r) :: (v, r);
    assert (u, s) in bound <==> Applies(db, u, s) by {
      assert s.OfGroup? && InScope(db, u, s) ==> (s.group, u).1 in db.people;
    }
  }

  /** The triggers to the second: a missing date starts its grace now, a stored one stays. */
  lemma SetMissingExactly(db: Db, u: UserId, scopes: set<Scope>, now: int, v: UserId, s: Scope)
    ensures var db' := SetMissing(db, u, scopes, now);
      if (v, s) in db.deadlines then (v, s) in db'.deadlines && db'.deadlines[(v, s)] == db.deadlines[(v, s)]
      else if v == u && s in scopes && Applies(db, u, s)
        then (v, s) in db'.deadlines && db'.deadlines[(v, s)] == now + db.policies[s].grace
      else (v, s) !in db'.deadlines
  {
    var missing := set r | r in scopes && Applies(db, u, r) :: (u, r);
    assert (v, s) in missing <==> v == u && s in scopes && Applies(db, u, s);
  }

  lemma PolicyKeeps(db: Db, s: Scope, required: bool, allowed: set<Factor>, grace: nat, revision: nat,
      session: Option<Session>, now: int)
    requires Inv(db)
    ensures Inv(SetPolicy(db, s, required, allowed, grace, revision, session, now).0)
  {
    var (db', r) := SetPolicy(db, s, required, allowed, grace, revision, session, now);
    if r.Ok? {
      var tx := db.(policies := db.policies[s := Policy(required, allowed, grace, revision + 1)]);
      TightenEffect(tx, now);
      assert db' == Tighten(tx, now);
      forall v | v in db'.people ensures AllowedFactors(db', v) != {} {
        assert Required(tx, v) || Totp in AllowedFactors(tx, v);
        FactorsOnlyGrow(tx, db', v);
      }
      AdministratorWitness(db', session.value.user);
    }
  }

  /** An administrator who keeps a factor shows that the first two policies have one in common. */
  lemma AdministratorWitness(db: Db, a: UserId)
    requires WellFormed(db) && a in db.people && db.people[a].admin && AllowedFactors(db, a) != {}
    ensures AdministratorsAdmitted(db)
  {
    var f :| f in AllowedFactors(db, a);
    assert Applies(db, a, Organization) <==> db.policies[Organization].required;
    assert Applies(db, a, Administrators) <==> db.policies[Administrators].required;
    assert db.policies[Organization].required && db.policies[Administrators].required ==>
      f in db.policies[Organization].allowed * db.policies[Administrators].allowed;
  }

  /** Someone with no group membership is bound by the first two policies at most. */
  lemma NewcomerAdmitted(db: Db, u: UserId)
    requires WellFormed(db) && AdministratorsAdmitted(db) && u in db.people
    requires forall g :: (g, u) !in db.members
    ensures AllowedFactors(db, u) != {}
  {
    var o, a := db.policies[Organization], db.policies[Administrators];
    var common := (if o.required then o.allowed else FACTORS) * (if a.required then a.allowed else FACTORS);
    if !o.required && !a.required {
      assert Totp in common;
    } else if !o.required {
      var f :| f in a.allowed;
      EveryFactor(f);
      assert f in common;
    } else if !a.required {
      var f :| f in o.allowed;
      EveryFactor(f);
      assert f in common;
    }
    var f :| f in common;
    EveryFactor(f);
    assert f in AllowedFactors(db, u);
  }

  lemma StepKeeps(db: Db, op: Op, now: int)
    requires Inv(db)
    ensures Inv(Apply(db, op, now).0)
  {
    match op
    case CreateUserOp(u, person) => CreateUserKeeps(db, u, person, now);
    case RoleOp(u, person) => RoleKeeps(db, u, person, now);
    case DelegateOp(u, rows, apps) => DelegateKeeps(db, u, rows, apps, now);
    case DropRecordOp(app) => DropRecordKeeps(db, app);
    case MemberOp(g, u, member, until, session) => MemberKeeps(db, g, u, member, until, session, now);
    case PolicyOp(s, required, allowed, grace, revision, session) => PolicyKeeps(db, s, required, allowed, grace,
      revision, session, now);
    case CreateGroupOp(g) => CreateGroupKeeps(db, g);
    case DeleteGroupOp(g, session) => DeleteGroupKeeps(db, g, session, now);
    case ExpireMemberOp(g, u) => ExpireMemberKeeps(db, g, u);
    case DeleteUserOp(u) => DeleteUserKeeps(db, u);
    case ResetOp(u) => ResetKeeps(db, u);
    case AddFactorOp(u, factor) => FactorsKeep(db, db.factors + {(u, factor)});
    case RemoveFactorOp(u, factor) => FactorsKeep(db, db.factors - {(u, factor)});
  }

  // ---- whole runs -----------------------------------------------------------------------------------

  datatype Step = Step(op: Op, now: int)

  function Run(db: Db, steps: seq<Step>): Db
    decreases |steps|
  {
    if steps == [] then db else Run(Apply(db, steps[0].op, steps[0].now).0, steps[1..])
  }

  lemma FreshKeeps()
    ensures Inv(FRESH)
  {
    forall u, s ensures !Applies(FRESH, u, s) {
    }
    assert Totp in FACTORS;
  }

  lemma {:induction false} RunKeeps(db: Db, steps: seq<Step>)
    requires Inv(db)
    ensures Inv(Run(db, steps))
    decreases |steps|
  {
    if steps != [] {
      StepKeeps(db, steps[0].op, steps[0].now);
      RunKeeps(Apply(db, steps[0].op, steps[0].now).0, steps[1..]);
    }
  }

  /** In every reachable state each user may enroll some factor and each obligation has its date. */
  lemma NobodyIsEverLockedOut(steps: seq<Step>)
    ensures var db := Run(FRESH, steps);
      && (forall u :: u in db.people ==> AllowedFactors(db, u) != {})
      && (forall u, s :: Applies(db, u, s) ==> (u, s) in db.deadlines)
  {
    FreshKeeps();
    RunKeeps(FRESH, steps);
  }

  /** The op that removes the user, or the policy's group, together with the deadline. */
  predicate Drops(op: Op, u: UserId, s: Scope) {
    || (op.DeleteUserOp? && op.user == u)
    || (op.DeleteGroupOp? && s == OfGroup(op.group))
  }

  /** The deadlines of one state are all still there in another, none later. */
  ghost predicate NoLater(db: Db, db': Db, u: UserId, s: Scope) {
    (u, s) in db.deadlines ==> (u, s) in db'.deadlines && db'.deadlines[(u, s)] <= db.deadlines[(u, s)]
  }

  /** Dates count from the epoch. */
  predicate DatesFromEpoch(db: Db) {
    forall p :: p in db.deadlines ==> db.deadlines[p] >= 0
  }

  lemma StepMovesNoDeadlineLater(db: Db, op: Op, now: int, u: UserId, s: Scope)
    requires DatesFromEpoch(db) && !Drops(op, u, s)
    ensures NoLater(db, Apply(db, op, now).0, u, s)
  {
  }

  lemma SetMissingKeepsEpoch(db: Db, u: UserId, scopes: set<Scope>, now: int)
    requires DatesFromEpoch(db) && now >= 0
    ensures DatesFromEpoch(SetMissing(db, u, scopes, now))
  {
  }

  lemma PolicyKeepsEpoch(db: Db, s: Scope, required: bool, allowed: set<Factor>, grace: nat, revision: nat,
      session: Option<Session>, now: int)
    requires DatesFromEpoch(db) && now >= 0
    ensures DatesFromEpoch(SetPolicy(db, s, required, allowed, grace, revision, session, now).0)
  {
  }

  lemma RemovalKeepsEpoch(db: Db, op: Op, now: int)
    requires DatesFromEpoch(db)
    requires op.CreateGroupOp? || op.DeleteGroupOp? || op.ExpireMemberOp? || op.ResetOp? || op.AddFactorOp?
      || op.RemoveFactorOp? || op.DeleteUserOp? || op.DropRecordOp?
    ensures DatesFromEpoch(Apply(db, op, now).0)
  {
  }

  lemma AccountKeepsEpoch(db: Db, op: Op, now: int)
    requires DatesFromEpoch(db) && now >= 0 && (op.CreateUserOp? || op.RoleOp?)
    ensures DatesFromEpoch(Apply(db, op, now).0)
  {
    SetMissingKeepsEpoch(db.(people := db.people[op.user := op.person]), op.user, db.policies.Keys, now);
  }

  lemma DelegationKeepsEpoch(db: Db, u: UserId, rows: seq<Delegation>, apps: set<string>, now: int)
    requires DatesFromEpoch(db) && now >= 0
    ensures DatesFromEpoch(SetDelegated(db, u, rows, apps, now).0)
  {
    SetMissingKeepsEpoch(WithDelegations(db, u, Rows(rows)), u, {Administrators}, now);
  }

  lemma MemberKeepsEpoch(db: Db, g: GroupId, u: UserId, member: bool, until: Option<int>, session: Option<Session>,
      now: int)
    requires DatesFromEpoch(db) && now >= 0
    ensures DatesFromEpoch(SetMember(db, g, u, member, until, session, now).0)
  {
    SetMissingKeepsEpoch(db.(members := db.members[(g, u) := until]), u, {OfGroup(g)}, now);
  }

  lemma StepKeepsEpoch(db: Db, op: Op, now: int)
    requires DatesFromEpoch(db) && now >= 0
    ensures DatesFromEpoch(Apply(db, op, now).0)
  {
    match op
    case CreateUserOp(_, _) => AccountKeepsEpoch(db, op, now);
    case RoleOp(_, _) => AccountKeepsEpoch(db, op, now);
    case DelegateOp(u, rows, apps) => DelegationKeepsEpoch(db, u, rows, apps, now);
    case MemberOp(g, u, member, until, session) => MemberKeepsEpoch(db, g, u, member, until, session, now);
    case PolicyOp(s, required, allowed, grace, revision, session) =>
      PolicyKeepsEpoch(db, s, required, allowed, grace, revision, session, now);
    case _ => RemovalKeepsEpoch(db, op, now);
  }

  /**
   A deadline once set never moves later: not by policy edits, disabling and re-enabling, role and
   delegation changes, or leaving and re-joining a group, until its user or group is deleted.
   */
  lemma {:induction false} DeadlinesOnlyTighten(db: Db, steps: seq<Step>, u: UserId, s: Scope)
    requires DatesFromEpoch(db)
    requires forall i :: 0 <= i < |steps| ==> steps[i].now >= 0 && !Drops(steps[i].op, u, s)
    ensures NoLater(db, Run(db, steps), u, s)
    decreases |steps|
  {
    if steps != [] {
      var db' := Apply(db, steps[0].op, steps[0].now).0;
      StepMovesNoDeadlineLater(db, steps[0].op, steps[0].now, u, s);
      StepKeepsEpoch(db, steps[0].op, steps[0].now);
      DeadlinesOnlyTighten(db', steps[1..], u, s);
    }
  }

  lemma {:induction false} RunKeepsEpoch(db: Db, steps: seq<Step>)
    requires DatesFromEpoch(db) && forall i :: 0 <= i < |steps| ==> steps[i].now >= 0
    ensures DatesFromEpoch(Run(db, steps))
    decreases |steps|
  {
    if steps != [] {
      StepKeepsEpoch(db, steps[0].op, steps[0].now);
      RunKeepsEpoch(Apply(db, steps[0].op, steps[0].now).0, steps[1..]);
    }
  }

  lemma {:induction false} RunConcat(db: Db, a: seq<Step>, b: seq<Step>)
    ensures Run(db, a + b) == Run(Run(db, a), b)
    decreases |a|
  {
    if a == [] {
      assert a + b == b;
    } else {
      assert (a + b)[0] == a[0] && (a + b)[1..] == a[1..] + b;
      RunConcat(Apply(db, a[0].op, a[0].now).0, a[1..], b);
    }
  }

  /** The same, between any two points of any history of the installation. */
  lemma HistoryOnlyTightens(before: seq<Step>, after: seq<Step>, u: UserId, s: Scope)
    requires forall i :: 0 <= i < |before| ==> before[i].now >= 0
    requires forall i :: 0 <= i < |after| ==> after[i].now >= 0 && !Drops(after[i].op, u, s)
    ensures NoLater(Run(FRESH, before), Run(FRESH, before + after), u, s)
  {
    RunConcat(FRESH, before, after);
    RunKeepsEpoch(FRESH, before);
    DeadlinesOnlyTighten(Run(FRESH, before), after, u, s);
  }

  /** The due date of the view: `MIN(COALESCE(due_at,0))` over the applicable policies. */
  function DueOf(db: Db, u: UserId, s: Scope): int {
    if (u, s) in db.deadlines then db.deadlines[(u, s)] else 0
  }

  function DueAt(db: Db, u: UserId, scopes: seq<Scope>): int {
    if scopes == [] then 0
    else if |scopes| == 1 then DueOf(db, u, scopes[0])
    else var rest := DueAt(db, u, scopes[1..]); if DueOf(db, u, scopes[0]) < rest then DueOf(db, u, scopes[0]) else rest
  }

  lemma {:induction false} DueAtIsMinimum(db: Db, u: UserId, scopes: seq<Scope>)
    requires scopes != []
    ensures exists s :: s in scopes && DueAt(db, u, scopes) == DueOf(db, u, s)
    ensures forall s :: s in scopes ==> DueAt(db, u, scopes) <= DueOf(db, u, s)
  {
    if |scopes| == 1 {
      assert scopes[0] in scopes;
    } else {
      DueAtIsMinimum(db, u, scopes[1..]);
      var s :| s in scopes[1..] && DueAt(db, u, scopes[1..]) == DueOf(db, u, s);
      assert scopes[0] in scopes && s in scopes;
    }
  }

  /** In every reachable state a bound user's due date is a stored deadline, the earliest of them. */
  lemma DueDateIsStored(steps: seq<Step>, u: UserId, scopes: seq<Scope>)
    requires scopes != [] && forall s :: s in scopes <==> Applies(Run(FRESH, steps), u, s)
    ensures var db := Run(FRESH, steps);
      && (exists s :: Applies(db, u, s) && (u, s) in db.deadlines && db.deadlines[(u, s)] == DueAt(db, u, scopes))
      && (forall s :: Applies(db, u, s) ==> (u, s) in db.deadlines && DueAt(db, u, scopes) <= db.deadlines[(u, s)])
  {
    NobodyIsEverLockedOut(steps);
    DueAtIsMinimum(Run(FRESH, steps), u, scopes);
  }

  // ---- why the administrator check is there ---------------------------------------------------------

  /** Creating an administrator leaves them a factor exactly when the first two policies share one. */
  lemma NewAdministratorAdmittedIff(db: Db, u: UserId, active: bool, now: int)
    requires WellFormed(db) && u !in db.people
    ensures var db' := CreateUser(db, u, Person(true, active), now).0;
      AllowedFactors(db', u) != {} <==> AdministratorsAdmitted(db)
  {
    var tx := db.(people := db.people[u := Person(true, active)]);
    SetMissingEffect(tx, u, db.policies.Keys, now);
    var db' := SetMissing(tx, u, db.policies.Keys, now);
    assert forall g :: (g, u) in db.members ==> (g, u).1 in db.people;
    if AdministratorsAdmitted(db) {
      NewcomerAdmitted(db', u);
    } else if AllowedFactors(db', u) != {} {
      AdministratorWitness(db', u);
    }
  }

  /**
   Checking only the users who exist is not enough: in a directory without an administrator two
   conflicting policies are compatible with everybody, and the next administrator has no factor.
   */
  lemma CompatibilityAloneIsNotEnough()
    ensures exists db, s, allowed ::
      && Inv(db) && s in db.policies
      && var tx := db.(policies := db.policies[s := Policy(true, allowed, 0, 2)]);
      && Compatible(tx)
      && AllowedFactors(CreateUser(Tighten(tx, 0), "root", Person(true, true), 0).0, "root") == {}
  {
    var db := FRESH.(policies := FRESH.policies[Organization := Policy(true, {Totp}, 0, 2)]);
    assert Totp in {Totp};
    assert Inv(db);
    var tx := db.(policies := db.policies[Administrators := Policy(true, {Push}, 0, 2)]);
    assert Compatible(tx);
    var db' := CreateUser(Tighten(tx, 0), "root", Person(true, true), 0).0;
    assert Applies(db', "root", Organization) && Applies(db', "root", Administrators);
    assert AllowedFactors(db', "root") == {};
  }

  // ---- sessions and factors under the policies ------------------------------------------------------

  /** No obligation of the user is due yet. */
  predicate InGrace(db: Db, u: UserId, now: int) {
    forall s :: s in db.policies && Applies(db, u, s) ==> now < DueOf(db, u, s)
  }

  /** For a bound user that is the view's comparison with the earliest date. */
  lemma InGraceIsBeforeDue(db: Db, u: UserId, scopes: seq<Scope>, now: int)
    requires scopes != [] && forall s :: s in scopes <==> Applies(db, u, s)
    ensures InGrace(db, u, now) <==> now < DueAt(db, u, scopes)
  {
    DueAtIsMinimum(db, u, scopes);
  }

  /** The session view: full access, rather than enrollment only. */
  predicate SessionAllowed(db: Db, session: Session, now: int) {
    && !session.enrollmentOnly
    && (|| !Required(db, session.user)
        || (!session.factorBy.Recovery? && InGrace(db, session.user, now) && !Compliant(db, session.user))
        || (session.primaryAt.Some? && session.factorAt.Some? && session.factorBy.Used?
            && session.factorBy.factor in AllowedFactors(db, session.user)
               && (session.user, session.factorBy.factor) in db.factors))
  }

  /** Whoever commits a policy edit keeps full access under it. */
  lemma ActivatorKeepsAccess(db: Db, s: Scope, required: bool, allowed: set<Factor>, grace: nat, revision: nat,
      session: Session, now: int)
    requires SetPolicy(db, s, required, allowed, grace, revision, Some(session), now).1.Ok?
    ensures SessionAllowed(SetPolicy(db, s, required, allowed, grace, revision, Some(session), now).0, session, now)
  {
  }

  /** Removing a factor is refused exactly when it is a bound user's only permitted one. */
  lemma LastCompliantFactorIsKept(db: Db, u: UserId, factor: Factor)
    ensures RemoveFactor(db, u, factor).1.LastFactor? <==>
      && Required(db, u) && (u, factor) in db.factors && factor in AllowedFactors(db, u)
      && forall f :: f in AllowedFactors(db, u) && (u, f) in db.factors ==> f == factor
    ensures Compliant(db, u) ==> Compliant(RemoveFactor(db, u, factor).0, u)
  {
    var tx := db.(factors := db.factors - {(u, factor)});
    assert forall s :: Applies(tx, u, s) <==> Applies(db, u, s);
    assert AllowedFactors(tx, u) == AllowedFactors(db, u);
    assert Required(tx, u) <==> Required(db, u);
    if f :| f in AllowedFactors(db, u) && (u, f) in db.factors && f != factor {
      assert (u, f) in tx.factors && (u, f).0 == u;
    }
  }

  // ---- a grace period starts once -------------------------------------------------------------------

  predicate DatedNow(db: Db, u: UserId, s: Scope, now: int) {
    (u, s) in db.deadlines ==> Applies(db, u, s) && db.deadlines[(u, s)] == now + db.policies[s].grace
  }

  lemma TriggersDateNow(db: Db, v: UserId, scopes: set<Scope>, now: int, u: UserId, s: Scope)
    requires (u, s) !in db.deadlines
    ensures DatedNow(SetMissing(db, v, scopes, now), u, s, now)
  {
    SetMissingExactly(db, v, scopes, now, u, s);
    SameObligations(db, SetMissing(db, v, scopes, now), u);
  }

  lemma PolicyDatesNow(db: Db, r: Scope, required: bool, allowed: set<Factor>, grace: nat, revision: nat,
      session: Option<Session>, now: int, u: UserId, s: Scope)
    requires WellFormed(db) && (u, s) !in db.deadlines
    ensures DatedNow(SetPolicy(db, r, required, allowed, grace, revision, session, now).0, u, s, now)
  {
    if SetPolicy(db, r, required, allowed, grace, revision, session, now).1.Ok? {
      TightenDatesNow(WithPolicy(db, r, Policy(required, allowed, grace, revision + 1)), now, u, s);
    }
  }

  lemma TightenDatesNow(db: Db, now: int, u: UserId, s: Scope)
    requires WellFormed(db) && (u, s) !in db.deadlines
    ensures DatedNow(Tighten(db, now), u, s, now)
  {
    TightenExactly(db, now, u, s);
    SameObligations(db, Tighten(db, now), u);
  }

  lemma MemberDatesNow(db: Db, g: GroupId, v: UserId, member: bool, until: Option<int>, session: Option<Session>,
      now: int, u: UserId, s: Scope)
    requires (u, s) !in db.deadlines
    ensures DatedNow(SetMember(db, g, v, member, until, session, now).0, u, s, now)
  {
    TriggersDateNow(db.(members := db.members[(g, v) := until]), v, {OfGroup(g)}, now, u, s);
  }

  /** A date that appears is the grace of the policy that brought it, counted from that very instant. */
  lemma NewDateIsGraceFromNow(db: Db, op: Op, now: int, u: UserId, s: Scope)
    requires WellFormed(db) && (u, s) !in db.deadlines
    ensures DatedNow(Apply(db, op, now).0, u, s, now)
  {
    match op
    case CreateUserOp(v, person) => TriggersDateNow(db.(people := db.people[v := person]), v, db.policies.Keys,
      now, u, s);
    case RoleOp(v, person) => TriggersDateNow(db.(people := db.people[v := person]), v, db.policies.Keys, now, u, s);
    case DelegateOp(v, rows, _) => TriggersDateNow(WithDelegations(db, v, Rows(rows)), v, {Administrators}, now, u, s);
    case MemberOp(g, v, member, until, session) => MemberDatesNow(db, g, v, member, until, session, now, u, s);
    case PolicyOp(r, required, allowed, grace, revision, session) =>
      PolicyDatesNow(db, r, required, allowed, grace, revision, session, now, u, s);
    case _ => OtherStepsDateNothing(db, op, now, u, s);
  }

  lemma OtherStepsDateNothing(db: Db, op: Op, now: int, u: UserId, s: Scope)
    requires (u, s) !in db.deadlines
    requires op.CreateGroupOp? || op.DeleteGroupOp? || op.ExpireMemberOp? || op.ResetOp? || op.AddFactorOp?
      || op.RemoveFactorOp? || op.DeleteUserOp? || op.DropRecordOp?
    ensures (u, s) !in Apply(db, op, now).0.deadlines
  {
  }

  /**
   The grace period of an obligation is granted once: from the step that first dates it, and until its
   user or group is deleted, the date stays at or before that instant plus the grace of that moment.
   */
  lemma GraceNeverRestarts(before: seq<Step>, first: Step, after: seq<Step>, u: UserId, s: Scope)
    requires (forall i :: 0 <= i < |before| ==> before[i].now >= 0) && first.now >= 0
    requires forall i :: 0 <= i < |after| ==> after[i].now >= 0 && !Drops(after[i].op, u, s)
    requires (u, s) !in Run(FRESH, before).deadlines && (u, s) in Run(FRESH, before + [first]).deadlines
    ensures var begun, end := Run(FRESH, before + [first]), Run(FRESH, before + [first] + after);
      && Applies(begun, u, s) && begun.deadlines[(u, s)] == first.now + begun.policies[s].grace
      && (u, s) in end.deadlines && end.deadlines[(u, s)] <= first.now + begun.policies[s].grace
  {
    FreshKeeps();
    RunKeeps(FRESH, before);
    RunConcat(FRESH, before, [first]);
    assert Run(Run(FRESH, before), [first]) == Apply(Run(FRESH, before), first.op, first.now).0 by {
      assert [first][1..] == [];
    }
    NewDateIsGraceFromNow(Run(FRESH, before), first.op, first.now, u, s);
    HistoryOnlyTightens(before + [first], after, u, s);
  }

  /**
   What an accepted edit leaves: everyone a factor, and every obligation dated within its grace and no
   later than before.
   */
  ghost predicate Settled(db: Db, tx: Db, now: int) {
    && NobodyLockedOut(tx)
    && (forall u, t :: Applies(tx, u, t) ==>
       (u, t) in tx.deadlines && tx.deadlines[(u, t)] <= now + tx.policies[t].grace)
    && (forall p :: p in db.deadlines ==> p in tx.deadlines && tx.deadlines[p] <= db.deadlines[p])
  }

  lemma TightenSettles(db: Db, written: Db, now: int)
    requires written.deadlines == db.deadlines && WellFormed(written) && Compatible(written)
    ensures Settled(db, Tighten(written, now), now)
  {
    var tx := Tighten(written, now);
    forall v | v in tx.people ensures AllowedFactors(tx, v) != {} {
      assert Required(written, v) || Totp in AllowedFactors(written, v);
      SameObligations(written, tx, v);
    }
    TightenEffect(written, now);
    forall u, t | Applies(tx, u, t) ensures (u, t) in tx.deadlines
      && tx.deadlines[(u, t)] <= now + tx.policies[t].grace {
      TightenExactly(written, now, u, t);
    }
  }

  lemma EditSettles(db: Db, s: Scope, required: bool, allowed: set<Factor>, grace: nat, revision: nat, now: int)
    requires WellFormed(db) && EditPolicy(db, s, required, allowed, grace, revision, now).1.Ok?
    ensures Settled(db, EditPolicy(db, s, required, allowed, grace, revision, now).0, now)
  {
    TightenSettles(db, WithPolicy(db, s, Policy(required, allowed, grace, revision + 1)), now);
  }

  /** Deadlines play no part in what applies. */
  lemma SameObligations(db: Db, db': Db, u: UserId)
    requires db' == db.(deadlines := db'.deadlines)
    ensures forall s :: Applies(db', u, s) <==> Applies(db, u, s)
    ensures AllowedFactors(db', u) == AllowedFactors(db, u)
  {
    FactorsOnlyGrow(db, db', u);
    FactorsOnlyGrow(db', db, u);
  }
}
