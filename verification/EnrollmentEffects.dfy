/** What each accepted enrollment transaction writes, table by table, and whom it then binds. */
module EnrollmentEffects {
  import opened Optional
  import opened Enrollment

  predicate IsRequired(db: Db, s: Scope) { s in db.policies && db.policies[s].required }

  /** The user has a delegation besides owning the app. */
  predicate OwnsMore(db: Db, u: UserId, app: string) {
    exists d :: d in RowsOf(db, u) && d != AppOwner(app)
  }

  /** Whom a policy binds after an accepted step, by what was there before it. */
  predicate BindsAfter(db: Db, op: Op, u: UserId, s: Scope) {
    match op
    case CreateUserOp(v, person) =>
      if u == v then IsRequired(db, s) && (s == Organization || (s == Administrators && person.admin))
      else Applies(db, u, s)
    case RoleOp(v, person) =>
      if u == v && s == Administrators then IsRequired(db, s) && (person.admin || Delegated(db, u))
      else Applies(db, u, s)
    case DelegateOp(v, rows, _) =>
      if u == v && s == Administrators then IsRequired(db, s) && u in db.people && (db.people[u].admin || rows != [])
      else Applies(db, u, s)
    case DropRecordOp(app) =>
      if s == Administrators then IsRequired(db, s) && u in db.people && (db.people[u].admin || OwnsMore(db, u, app))
      else Applies(db, u, s)
    case DeleteGroupOp(g, _) => s != OfGroup(g) && Applies(db, u, s)
    case MemberOp(g, v, member, _, _) =>
      if u == v && s == OfGroup(g) then IsRequired(db, s) && member else Applies(db, u, s)
    case ExpireMemberOp(g, v) => !(u == v && s == OfGroup(g)) && Applies(db, u, s)
    case PolicyOp(r, required, _, _, _, _) => if s == r then required && InScope(db, u, s) else Applies(db, u, s)
    case DeleteUserOp(v) => u != v && Applies(db, u, s)
    case _ => Applies(db, u, s)
  }

  lemma SetMissingBinds(db: Db, u: UserId, scopes: set<Scope>, now: int, v: UserId, s: Scope)
    ensures Applies(SetMissing(db, u, scopes, now), v, s) <==> Applies(db, v, s)
  {
  }

  lemma CreatedBinds(db: Db, v: UserId, person: Person, now: int, u: UserId, s: Scope)
    requires WellFormed(db) && CreateUser(db, v, person, now).1.Ok?
    ensures Applies(CreateUser(db, v, person, now).0, u, s) <==> BindsAfter(db, CreateUserOp(v, person), u, s)
  {
    SetMissingBinds(db.(people := db.people[v := person]), v, db.policies.Keys, now, u, s);
    assert forall g :: (g, v) in db.members ==> (g, v).1 in db.people;
  }

  lemma RoleBinds(db: Db, v: UserId, person: Person, now: int, u: UserId, s: Scope)
    requires SetRole(db, v, person, now).1.Ok?
    ensures Applies(SetRole(db, v, person, now).0, u, s) <==> BindsAfter(db, RoleOp(v, person), u, s)
  {
    SetMissingBinds(db.(people := db.people[v := person]), v, db.policies.Keys, now, u, s);
  }

  lemma DelegationBinds(db: Db, v: UserId, rows: seq<Delegation>, apps: set<string>, now: int, u: UserId, s: Scope)
    requires SetDelegated(db, v, rows, apps, now).1.Ok?
    ensures Applies(SetDelegated(db, v, rows, apps, now).0, u, s) <==> BindsAfter(db, DelegateOp(v, rows, apps), u, s)
  {
    SetMissingBinds(WithDelegations(db, v, Rows(rows)), v, {Administrators}, now, u, s);
    SomeRows(rows);
  }

  lemma SomeRows(rows: seq<Delegation>)
    ensures Rows(rows) != {} <==> rows != []
  {
    if rows != [] {
      assert rows[0] in Rows(rows);
    }
  }

  lemma LostRecordBinds(db: Db, app: string, u: UserId, s: Scope)
    requires WellFormed(db)
    ensures Applies(DropRecord(db, app), u, s) <==> BindsAfter(db, DropRecordOp(app), u, s)
  {
    var db' := DropRecord(db, app);
    assert RowsOf(db', u) == RowsOf(db, u) - {AppOwner(app)};
    assert Delegated(db', u) <==> OwnsMore(db, u, app) by {
      if d :| d in RowsOf(db, u) && d != AppOwner(app) {
        assert d in RowsOf(db', u);
      }
      if Delegated(db', u) {
        var d :| d in RowsOf(db', u);
        assert d in RowsOf(db, u) && d != AppOwner(app);
      }
    }
  }

  lemma MemberBinds(db: Db, g: GroupId, v: UserId, member: bool, until: Option<int>, session: Option<Session>, now: int,
      u: UserId, s: Scope)
    requires SetMember(db, g, v, member, until, session, now).1.Ok?
    ensures Applies(SetMember(db, g, v, member, until, session, now).0, u, s) <==>
      BindsAfter(db, MemberOp(g, v, member, until, session), u, s)
  {
    var tx := db.(members := if member then db.members[(g, v) := until] else db.members - {(g, v)});
    SetMissingBinds(tx, v, {OfGroup(g)}, now, u, s);
  }

  lemma AcceptedPolicy(db: Db, r: Scope, required: bool, allowed: set<Factor>, grace: nat, revision: nat,
      session: Option<Session>, now: int)
    requires SetPolicy(db, r, required, allowed, grace, revision, session, now).1.Ok?
    ensures allowed != {} && r in db.policies && db.policies[r].revision == revision
    ensures SetPolicy(db, r, required, allowed, grace, revision, session, now).0 ==
      Tighten(WithPolicy(db, r, Policy(required, allowed, grace, revision + 1)), now)
  {
  }

  lemma WrittenPolicyBinds(db: Db, op: Op, u: UserId, s: Scope)
    requires op.PolicyOp?
    ensures Applies(WithPolicy(db, op.scope, Policy(op.required, op.allowed, op.grace, op.revision + 1)), u, s) <==>
      BindsAfter(db, op, u, s)
  {
  }

  lemma PolicyBinds(db: Db, op: Op, now: int, u: UserId, s: Scope)
    requires op.PolicyOp? && Apply(db, op, now).1.Ok?
    ensures Applies(Apply(db, op, now).0, u, s) <==> BindsAfter(db, op, u, s)
  {
    var tx := WithPolicy(db, op.scope, Policy(op.required, op.allowed, op.grace, op.revision + 1));
    AcceptedPolicy(db, op.scope, op.required, op.allowed, op.grace, op.revision, op.session, now);
    WrittenPolicyBinds(db, op, u, s);
    SameObligations(tx, Tighten(tx, now), u);
  }

  lemma DeletionBinds(db: Db, g: GroupId, session: Option<Session>, now: int, u: UserId, s: Scope)
    requires DeleteGroup(db, g, session, now).1.Ok?
    ensures Applies(DeleteGroup(db, g, session, now).0, u, s) <==> BindsAfter(db, DeleteGroupOp(g, session), u, s)
  {
    if s.OfGroup? {
      assert (s.group, u).0 == s.group;
    }
  }

  lemma UserDeletionBinds(db: Db, v: UserId, u: UserId, s: Scope)
    requires WellFormed(db)
    ensures Applies(DeleteUser(db, v).0, u, s) <==> BindsAfter(db, DeleteUserOp(v), u, s)
  {
    if s.OfGroup? {
      assert (s.group, u).1 == u;
    }
    assert u != v ==> RowsOf(DeleteUser(db, v).0, u) == RowsOf(db, u);
  }

  lemma OtherStepBinds(db: Db, op: Op, now: int, u: UserId, s: Scope)
    requires WellFormed(db) && Apply(db, op, now).1.Ok?
    requires op.CreateGroupOp? || op.ExpireMemberOp? || op.ResetOp? || op.AddFactorOp? || op.RemoveFactorOp?
    ensures Applies(Apply(db, op, now).0, u, s) <==> BindsAfter(db, op, u, s)
  {
  }

  /** Whom each policy binds after any accepted step. */
  lemma StepBinds(db: Db, op: Op, now: int, u: UserId, s: Scope)
    requires WellFormed(db) && Apply(db, op, now).1.Ok?
    ensures Applies(Apply(db, op, now).0, u, s) <==> BindsAfter(db, op, u, s)
  {
    match op
    case CreateUserOp(v, person) => CreatedBinds(db, v, person, now, u, s);
    case RoleOp(v, person) => RoleBinds(db, v, person, now, u, s);
    case DelegateOp(v, rows, apps) => DelegationBinds(db, v, rows, apps, now, u, s);
    case DeleteGroupOp(g, session) => DeletionBinds(db, g, session, now, u, s);
    case DeleteUserOp(v) => UserDeletionBinds(db, v, u, s);
    case DropRecordOp(app) => LostRecordBinds(db, app, u, s);
    case MemberOp(g, v, member, until, session) => MemberBinds(db, g, v, member, until, session, now, u, s);
    case PolicyOp(_, _, _, _, _, _) => PolicyBinds(db, op, now, u, s);
    case _ => OtherStepBinds(db, op, now, u, s);
  }

  // ---- the rows -------------------------------------------------------------------------------------

  function PersonAfter(db: Db, op: Op, u: UserId): Option<Person> {
    if (op.CreateUserOp? || op.RoleOp?) && op.user == u then Some(op.person)
    else if u !in db.people || op == DeleteUserOp(u) then None
    else Some(db.people[u])
  }

  function RowsAfter(db: Db, op: Op, u: UserId): set<Delegation> {
    match op
    case DelegateOp(v, rows, _) => if u == v then (set i | 0 <= i < |rows| :: rows[i]) else RowsOf(db, u)
    case DropRecordOp(app) => RowsOf(db, u) - {AppOwner(app)}
    case DeleteUserOp(v) => if u == v then {} else RowsOf(db, u)
    case _ => RowsOf(db, u)
  }

  /** The end of the membership, where there is one. */
  function MemberAfter(db: Db, op: Op, g: GroupId, u: UserId): Option<Option<int>> {
    match op
    case MemberOp(h, v, member, until, _) =>
      if (g, u) == (h, v) then (if member then Some(until) else None) else MemberNow(db, g, u)
    case ExpireMemberOp(h, v) => if (g, u) == (h, v) then None else MemberNow(db, g, u)
    case DeleteGroupOp(h, _) => if g == h then None else MemberNow(db, g, u)
    case DeleteUserOp(v) => if u == v then None else MemberNow(db, g, u)
    case _ => MemberNow(db, g, u)
  }

  function MemberNow(db: Db, g: GroupId, u: UserId): Option<Option<int>> {
    if (g, u) in db.members then Some(db.members[(g, u)]) else None
  }

  predicate EnrolledAfter(db: Db, op: Op, u: UserId, f: Factor) {
    match op
    case AddFactorOp(v, e) => (u, f) == (v, e) || (u, f) in db.factors
    case RemoveFactorOp(v, e) => (u, f) != (v, e) && (u, f) in db.factors
    case ResetOp(v) => u != v && (u, f) in db.factors
    case DeleteUserOp(v) => u != v && (u, f) in db.factors
    case _ => (u, f) in db.factors
  }

  function PolicyAfter(db: Db, op: Op, s: Scope): Option<Policy> {
    match op
    case PolicyOp(r, required, allowed, grace, revision, _) =>
      if s == r then Some(Policy(required, allowed, grace, revision + 1)) else PolicyNow(db, s)
    case CreateGroupOp(g) => if s == OfGroup(g) then Some(Policy(false, FACTORS, 0, 1)) else PolicyNow(db, s)
    case DeleteGroupOp(g, _) => if s == OfGroup(g) then None else PolicyNow(db, s)
    case _ => PolicyNow(db, s)
  }

  function PolicyNow(db: Db, s: Scope): Option<Policy> {
    if s in db.policies then Some(db.policies[s]) else None
  }

  function PersonNow(db: Db, u: UserId): Option<Person> {
    if u in db.people then Some(db.people[u]) else None
  }

  /** Every accepted step writes what was asked, to the account it names and no other. */
  lemma StepWritesPeople(db: Db, op: Op, now: int, u: UserId)
    requires Apply(db, op, now).1.Ok?
    ensures PersonNow(Apply(db, op, now).0, u) == PersonAfter(db, op, u)
  {
  }

  lemma MembershipWritten(db: Db, h: GroupId, v: UserId, member: bool, until: Option<int>, session: Option<Session>,
      now: int, g: GroupId, u: UserId)
    requires SetMember(db, h, v, member, until, session, now).1.Ok?
    ensures MemberNow(SetMember(db, h, v, member, until, session, now).0, g, u) ==
      MemberAfter(db, MemberOp(h, v, member, until, session), g, u)
  {
  }

  lemma MembershipsFiltered(db: Db, op: Op, now: int, g: GroupId, u: UserId)
    requires Apply(db, op, now).1.Ok? && (op.DeleteGroupOp? || op.DeleteUserOp? || op.ExpireMemberOp?)
    ensures MemberNow(Apply(db, op, now).0, g, u) == MemberAfter(db, op, g, u)
  {
    assert (g, u).0 == g && (g, u).1 == u;
  }

  lemma OtherStepsWriteNoMembers(db: Db, op: Op, now: int)
    requires !op.MemberOp? && !op.DeleteGroupOp? && !op.DeleteUserOp? && !op.ExpireMemberOp?
    ensures Apply(db, op, now).0.members == db.members
  {
  }

  /** Likewise the memberships. */
  lemma StepWritesMembers(db: Db, op: Op, now: int, g: GroupId, u: UserId)
    requires Apply(db, op, now).1.Ok?
    ensures MemberNow(Apply(db, op, now).0, g, u) == MemberAfter(db, op, g, u)
  {
    match op
    case MemberOp(h, v, member, until, session) => MembershipWritten(db, h, v, member, until, session, now, g, u);
    case DeleteGroupOp(_, _) => MembershipsFiltered(db, op, now, g, u);
    case DeleteUserOp(_) => MembershipsFiltered(db, op, now, g, u);
    case ExpireMemberOp(_, _) => MembershipsFiltered(db, op, now, g, u);
    case _ => OtherStepsWriteNoMembers(db, op, now);
  }

  /** The policies: an accepted edit stores exactly what was asked, under the next revision. */
  lemma StepWritesPolicies(db: Db, op: Op, now: int, s: Scope)
    requires Apply(db, op, now).1.Ok?
    ensures PolicyNow(Apply(db, op, now).0, s) == PolicyAfter(db, op, s)
  {
  }

  /** The enrolled factors. */
  lemma StepWritesFactors(db: Db, op: Op, now: int, u: UserId, f: Factor)
    requires Apply(db, op, now).1.Ok?
    ensures (u, f) in Apply(db, op, now).0.factors <==> EnrolledAfter(db, op, u, f)
  {
    assert (u, f).0 == u;
  }

  /** And the delegations. */
  lemma StepWritesDelegations(db: Db, op: Op, now: int, u: UserId)
    requires Apply(db, op, now).1.Ok?
    ensures RowsOf(Apply(db, op, now).0, u) == RowsAfter(db, op, u)
  {
  }

  // ---- the dates ------------------------------------------------------------------------------------

  function DateNow(db: Db, u: UserId, s: Scope): Option<int> {
    if (u, s) in db.deadlines then Some(db.deadlines[(u, s)]) else None
  }

  /** A step that may date an obligation of the user for the first time. */
  predicate Dates(db: Db, op: Op, u: UserId, s: Scope) {
    match op
    case CreateUserOp(v, _) => u == v
    case RoleOp(v, _) => u == v
    case DelegateOp(v, rows, _) => u == v && rows != [] && s == Administrators
    case MemberOp(g, v, member, _, _) => u == v && member && (g, v) !in db.members && s == OfGroup(g)
    case _ => false
  }

  /** The date of an obligation after an accepted step. */
  function DateAfter(db: Db, op: Op, now: int, u: UserId, s: Scope): Option<int> {
    var before := DateNow(db, u, s);
    if Drops(op, u, s) then None
    else if op == ResetOp(u) && before.Some? then Some(0)
    else if !(s in db.policies && BindsAfter(db, op, u, s)) then before
    else if op.PolicyOp? then
      var due := now + if op.scope == s then op.grace else db.policies[s].grace;
      if before.Some? && before.value < due then before else Some(due)
    else if Dates(db, op, u, s) && before.None? then Some(now + db.policies[s].grace)
    else before
  }

  lemma TriggeredDate(db: Db, v: UserId, scopes: set<Scope>, now: int, u: UserId, s: Scope)
    ensures DateNow(SetMissing(db, v, scopes, now), u, s) ==
      if u == v && s in scopes && Applies(db, u, s) && DateNow(db, u, s).None? then Some(now + db.policies[s].grace)
      else DateNow(db, u, s)
  {
    SetMissingExactly(db, v, scopes, now, u, s);
  }

  lemma TightenedDate(db: Db, now: int, u: UserId, s: Scope)
    requires WellFormed(db)
    ensures DateNow(Tighten(db, now), u, s) ==
      if !Applies(db, u, s) then DateNow(db, u, s)
      else if DateNow(db, u, s).Some? && DateNow(db, u, s).value < now + db.policies[s].grace then DateNow(db, u, s)
      else Some(now + db.policies[s].grace)
  {
    TightenExactly(db, now, u, s);
  }

  lemma WrittenPolicyWellFormed(db: Db, r: Scope, p: Policy)
    requires WellFormed(db) && p.allowed != {}
    ensures WellFormed(WithPolicy(db, r, p))
  {
  }

  lemma PolicyDates(db: Db, op: Op, now: int, u: UserId, s: Scope)
    requires WellFormed(db) && op.PolicyOp? && op.allowed != {} && op.scope in db.policies
    ensures DateNow(Tighten(WithPolicy(db, op.scope, Policy(op.required, op.allowed, op.grace, op.revision + 1)),
      now), u, s)
      == DateAfter(db, op, now, u, s)
  {
    var tx := WithPolicy(db, op.scope, Policy(op.required, op.allowed, op.grace, op.revision + 1));
    WrittenPolicyWellFormed(db, op.scope, Policy(op.required, op.allowed, op.grace, op.revision + 1));
    TightenedDate(tx, now, u, s);
    WrittenPolicyBinds(db, op, u, s);
  }

  lemma EditedDates(db: Db, op: Op, now: int, u: UserId, s: Scope)
    requires WellFormed(db) && op.PolicyOp? && Apply(db, op, now).1.Ok?
    ensures DateNow(Apply(db, op, now).0, u, s) == DateAfter(db, op, now, u, s)
  {
    AcceptedPolicy(db, op.scope, op.required, op.allowed, op.grace, op.revision, op.session, now);
    PolicyDates(db, op, now, u, s);
  }

  lemma AccountDates(db: Db, v: UserId, person: Person, now: int, u: UserId, s: Scope)
    requires WellFormed(db)
    ensures var tx := db.(people := db.people[v := person]);
      DateNow(SetMissing(tx, v, db.policies.Keys, now), u, s) ==
        if u == v && Applies(tx, u, s) && DateNow(db, u, s).None? then Some(now + db.policies[s].grace)
        else DateNow(db, u, s)
  {
    TriggeredDate(db.(people := db.people[v := person]), v, db.policies.Keys, now, u, s);
  }

  lemma CreatedDates(db: Db, v: UserId, person: Person, now: int, u: UserId, s: Scope)
    requires WellFormed(db) && CreateUser(db, v, person, now).1.Ok?
    ensures DateNow(CreateUser(db, v, person, now).0, u, s) == DateAfter(db, CreateUserOp(v, person), now, u, s)
  {
    AccountDates(db, v, person, now, u, s);
    CreatedBinds(db, v, person, now, u, s);
    SetMissingBinds(db.(people := db.people[v := person]), v, db.policies.Keys, now, u, s);
  }

  lemma RoleDates(db: Db, v: UserId, person: Person, now: int, u: UserId, s: Scope)
    requires WellFormed(db) && SetRole(db, v, person, now).1.Ok?
    ensures DateNow(SetRole(db, v, person, now).0, u, s) == DateAfter(db, RoleOp(v, person), now, u, s)
  {
    AccountDates(db, v, person, now, u, s);
    RoleBinds(db, v, person, now, u, s);
    SetMissingBinds(db.(people := db.people[v := person]), v, db.policies.Keys, now, u, s);
  }

  lemma DelegationDates(db: Db, v: UserId, rows: seq<Delegation>, apps: set<string>, now: int, u: UserId, s: Scope)
    requires WellFormed(db) && SetDelegated(db, v, rows, apps, now).1.Ok?
    ensures DateNow(SetDelegated(db, v, rows, apps, now).0, u, s) == DateAfter(db, DelegateOp(v, rows, apps), now, u, s)
  {
    TriggeredDate(WithDelegations(db, v, Rows(rows)), v, {Administrators}, now, u, s);
    DelegationBinds(db, v, rows, apps, now, u, s);
    SetMissingBinds(WithDelegations(db, v, Rows(rows)), v, {Administrators}, now, u, s);
  }

  lemma MemberDates(db: Db, g: GroupId, v: UserId, member: bool, until: Option<int>, session: Option<Session>, now: int,
      u: UserId, s: Scope)
    requires SetMember(db, g, v, member, until, session, now).1.Ok?
    ensures DateNow(SetMember(db, g, v, member, until, session, now).0, u, s) ==
      DateAfter(db, MemberOp(g, v, member, until, session), now, u, s)
  {
    var tx := db.(members := if member then db.members[(g, v) := until] else db.members - {(g, v)});
    TriggeredDate(tx, v, {OfGroup(g)}, now, u, s);
  }

  lemma RemovalDates(db: Db, op: Op, now: int, u: UserId, s: Scope)
    requires Apply(db, op, now).1.Ok?
    requires op.CreateGroupOp? || op.DeleteGroupOp? || op.ExpireMemberOp? || op.ResetOp? || op.AddFactorOp?
      || op.RemoveFactorOp? || op.DeleteUserOp? || op.DropRecordOp?
    ensures DateNow(Apply(db, op, now).0, u, s) == DateAfter(db, op, now, u, s)
  {
    assert (u, s).0 == u && (u, s).1 == s;
  }

  /** Every accepted step leaves every date exactly so. */
  lemma StepDates(db: Db, op: Op, now: int, u: UserId, s: Scope)
    requires WellFormed(db) && Apply(db, op, now).1.Ok?
    ensures DateNow(Apply(db, op, now).0, u, s) == DateAfter(db, op, now, u, s)
  {
    match op
    case CreateUserOp(v, person) => CreatedDates(db, v, person, now, u, s);
    case RoleOp(v, person) => RoleDates(db, v, person, now, u, s);
    case DelegateOp(v, rows, apps) => DelegationDates(db, v, rows, apps, now, u, s);
    case MemberOp(g, v, member, until, session) => MemberDates(db, g, v, member, until, session, now, u, s);
    case PolicyOp(_, _, _, _, _, _) => EditedDates(db, op, now, u, s);
    case _ => RemovalDates(db, op, now, u, s);
  }

  // ---- the factors ----------------------------------------------------------------------------------

  /** The factors that every policy which will bind the user permits. */
  ghost function AllowedAfter(db: Db, op: Op, u: UserId): set<Factor> {
    set f | f in FACTORS && forall s :: BindsAfter(db, op, u, s) ==>
      PolicyAfter(db, op, s).Some? && f in PolicyAfter(db, op, s).value.allowed
  }

  /** What the other policies leave the user. */
  ghost function OthersLeave(db: Db, u: UserId, s: Scope): set<Factor> {
    set f | f in FACTORS && forall t :: t != s && Applies(db, u, t) ==> f in db.policies[t].allowed
  }

  lemma StepAllows(db: Db, op: Op, now: int, u: UserId)
    requires WellFormed(db) && Apply(db, op, now).1.Ok?
    ensures AllowedFactors(Apply(db, op, now).0, u) == AllowedAfter(db, op, u)
  {
    var db' := Apply(db, op, now).0;
    forall s ensures Applies(db', u, s) <==> BindsAfter(db, op, u, s) {
      StepBinds(db, op, now, u, s);
    }
    forall s ensures PolicyNow(db', s) == PolicyAfter(db, op, s) {
      StepWritesPolicies(db, op, now, s);
    }
    AllowedBy(db', db, op, u);
  }

  lemma AllowedBy(db': Db, db: Db, op: Op, u: UserId)
    requires forall s :: Applies(db', u, s) <==> BindsAfter(db, op, u, s)
    requires forall s :: PolicyNow(db', s) == PolicyAfter(db, op, s)
    ensures AllowedFactors(db', u) == AllowedAfter(db, op, u)
  {
  }

  // ---- policy edits ---------------------------------------------------------------------------------

  /** The edit as asked: whom it binds, what it leaves them, and that nothing else is written. */
  ghost predicate EditStored(db: Db, db': Db, s: Scope, required: bool, allowed: set<Factor>, grace: nat,
      revision: nat) {
    && s in db.policies && db.policies[s].revision == revision && s in db'.policies
    && db'.policies[s].grace == grace && db'.policies[s].revision == revision + 1
    && db' == db.(policies := db'.policies, deadlines := db'.deadlines) && db'.policies - {s} == db.policies - {s}
    && (forall u :: Applies(db', u, s) <==> required && InScope(db, u, s))
    && (forall u, t :: t != s ==> (Applies(db', u, t) <==> Applies(db, u, t)))
    && (forall u :: AllowedFactors(db', u) ==
          (if required && InScope(db, u, s) then allowed else FACTORS) * OthersLeave(db, u, s))
  }

  lemma WrittenPolicyAllows(db: Db, s: Scope, p: Policy, u: UserId)
    ensures var tx := WithPolicy(db, s, p);
      AllowedFactors(tx, u) == (if p.required && InScope(db, u, s) then p.allowed else FACTORS) * OthersLeave(db, u, s)
  {
    var tx := WithPolicy(db, s, p);
    forall t ensures Applies(tx, u, t) <==> if t == s then p.required && InScope(db, u, s) else Applies(db, u, t) {
    }
    var own := if p.required && InScope(db, u, s) then p.allowed else FACTORS;
    forall f | f in AllowedFactors(tx, u) ensures f in own * OthersLeave(db, u, s) {
      forall t | t != s && Applies(db, u, t) ensures f in db.policies[t].allowed {
        assert t in tx.policies && Applies(tx, u, t);
      }
      assert Applies(tx, u, s) ==> f in tx.policies[s].allowed;
    }
    forall f | f in own * OthersLeave(db, u, s) ensures f in AllowedFactors(tx, u) {
      EveryFactor(f);
    }
  }

  /** An accepted policy edit stores what was asked, of the revision it was made on, and nothing else. */
  lemma AcceptedEditIsStored(db: Db, s: Scope, required: bool, allowed: set<Factor>, grace: nat, revision: nat,
      session: Option<Session>, now: int)
    requires SetPolicy(db, s, required, allowed, grace, revision, session, now).1.Ok?
    ensures EditStored(db, SetPolicy(db, s, required, allowed, grace, revision, session, now).0, s, required, allowed,
      grace, revision)
  {
    var p := Policy(required, allowed, grace, revision + 1);
    AcceptedPolicy(db, s, required, allowed, grace, revision, session, now);
    WrittenThenDated(db, s, p, now);
  }

  lemma WrittenThenDated(db: Db, s: Scope, p: Policy, now: int)
    requires s in db.policies && p.revision == db.policies[s].revision + 1
    ensures EditStored(db, Tighten(WithPolicy(db, s, p), now), s, p.required, p.allowed, p.grace, p.revision - 1)
  {
    var tx := WithPolicy(db, s, p);
    var db' := Tighten(tx, now);
    forall u ensures AllowedFactors(db', u) ==
      (if p.required && InScope(db, u, s) then p.allowed else FACTORS) * OthersLeave(db, u, s)
    {
      SameObligations(tx, db', u);
      WrittenPolicyAllows(db, s, p, u);
    }
    forall u, t ensures Applies(db', u, t) <==> if t == s then p.required && InScope(db, u, s) else Applies(db, u, t) {
    }
  }

  /**
   And it is accepted exactly when it is well formed and current, leaves everybody a factor, and whoever
   asks is an administrator who could undo it.
   */
  lemma EditAcceptedIff(db: Db, s: Scope, required: bool, allowed: set<Factor>, grace: nat, revision: nat,
      session: Option<Session>, now: int)
    ensures SetPolicy(db, s, required, allowed, grace, revision, session, now).1.Ok? <==>
      && Current(db, s, allowed, grace, revision)
      && (forall u :: u in db.people ==>
            (if required && InScope(db, u, s) then allowed else FACTORS) * OthersLeave(db, u, s) != {})
      && CanActivate(db.(policies := db.policies[s := Policy(required, allowed, grace, revision + 1)]), session, now)
  {
    WrittenCompatibleIff(db, s, Policy(required, allowed, grace, revision + 1));
    EditedActivatesIff(db, s, required, allowed, grace, revision, session, now);
    var tx := WithPolicy(db, s, Policy(required, allowed, grace, revision + 1));
    if EditPolicy(db, s, required, allowed, grace, revision, now).1.Ok? {
      EditOkOnlyIf(db, s, required, allowed, grace, revision, now);
    } else if Current(db, s, allowed, grace, revision) && Compatible(tx) {
      EditOkIf(db, s, required, allowed, grace, revision, now);
    }
  }

  lemma WrittenCompatibleIff(db: Db, s: Scope, p: Policy)
    ensures Compatible(WithPolicy(db, s, p)) <==> forall u :: u in db.people ==>
      (if p.required && InScope(db, u, s) then p.allowed else FACTORS) * OthersLeave(db, u, s) != {}
  {
    forall u ensures AllowedFactors(WithPolicy(db, s, p), u) ==
      (if p.required && InScope(db, u, s) then p.allowed else FACTORS) * OthersLeave(db, u, s)
    {
      WrittenPolicyAllows(db, s, p, u);
    }
    CompatibleIff(WithPolicy(db, s, p));
  }

  predicate Current(db: Db, s: Scope, allowed: set<Factor>, grace: nat, revision: nat) {
    && allowed != {} && grace <= 90 * 86_400 && revision > 0
    && s in db.policies && db.policies[s].revision == revision
  }

  lemma EditOkIf(db: Db, s: Scope, required: bool, allowed: set<Factor>, grace: nat, revision: nat, now: int)
    requires Current(db, s, allowed, grace, revision)
    requires Compatible(WithPolicy(db, s, Policy(required, allowed, grace, revision + 1)))
    ensures EditPolicy(db, s, required, allowed, grace, revision, now).1.Ok?
  {
  }

  lemma EditOkOnlyIf(db: Db, s: Scope, required: bool, allowed: set<Factor>, grace: nat, revision: nat, now: int)
    requires EditPolicy(db, s, required, allowed, grace, revision, now).1.Ok?
    ensures Current(db, s, allowed, grace, revision)
    ensures var tx := WithPolicy(db, s, Policy(required, allowed, grace, revision + 1));
      Compatible(tx) && EditPolicy(db, s, required, allowed, grace, revision, now).0 == Tighten(tx, now)
  {
  }

  lemma EditedActivatesIff(db: Db, s: Scope, required: bool, allowed: set<Factor>, grace: nat, revision: nat,
      session: Option<Session>, now: int)
    ensures SetPolicy(db, s, required, allowed, grace, revision, session, now).1.Ok? <==>
      && EditPolicy(db, s, required, allowed, grace, revision, now).1.Ok?
      && CanActivate(WithPolicy(db, s, Policy(required, allowed, grace, revision + 1)), session, now)
  {
    var tx := WithPolicy(db, s, Policy(required, allowed, grace, revision + 1));
    if EditPolicy(db, s, required, allowed, grace, revision, now).1.Ok? {
      EditOkOnlyIf(db, s, required, allowed, grace, revision, now);
      ActivatesAlike(tx, Tighten(tx, now), session, now);
    }
  }

  lemma CompatibleIff(db: Db)
    ensures Compatible(db) <==> forall u :: u in db.people ==> AllowedFactors(db, u) != {}
  {
    forall u | !Required(db, u) ensures Totp in AllowedFactors(db, u) {
      EveryFactor(Totp);
    }
  }

  lemma ActivatesAlike(db: Db, db': Db, session: Option<Session>, now: int)
    requires db' == db.(deadlines := db'.deadlines)
    ensures CanActivate(db', session, now) <==> CanActivate(db, session, now)
  {
    if session.Some? {
      SameObligations(db, db', session.value.user);
      assert Required(db', session.value.user) <==> Required(db, session.value.user);
    }
  }

  // ---- refusals -------------------------------------------------------------------------------------

  /** A role edit is refused exactly for an unknown account or one that it would leave no factor. */
  lemma RoleAcceptedIff(db: Db, u: UserId, person: Person, now: int)
    ensures SetRole(db, u, person, now).1.Ok? <==> u in db.people && AllowedAfter(db, RoleOp(u, person), u) != {}
  {
    if u in db.people {
      var tx := db.(people := db.people[u := person]);
      forall s ensures Applies(tx, u, s) <==> BindsAfter(db, RoleOp(u, person), u, s) {
      }
      AllowedBy(tx, db, RoleOp(u, person), u);
    }
  }

  /** Delegations are refused exactly for an unknown account or app, or where they would leave no factor. */
  lemma DelegationAcceptedIff(db: Db, u: UserId, rows: seq<Delegation>, apps: set<string>, now: int)
    ensures SetDelegated(db, u, rows, apps, now).1.Ok? <==>
      && u in db.people && (forall i :: 0 <= i < |rows| && rows[i].AppOwner? ==> rows[i].app in apps)
      && (rows == [] || AllowedAfter(db, DelegateOp(u, rows, apps), u) != {})
  {
    if u in db.people {
      var tx := WithDelegations(db, u, Rows(rows));
      SomeRows(rows);
      forall s ensures Applies(tx, u, s) <==> BindsAfter(db, DelegateOp(u, rows, apps), u, s) {
      }
      AllowedBy(tx, db, DelegateOp(u, rows, apps), u);
      assert forall i :: 0 <= i < |rows| ==> (Known(rows[i], apps) <==> (rows[i].AppOwner? ==> rows[i].app in apps));
    }
  }

  /** The membership as it would be written, before any date. */
  function Joined(db: Db, g: GroupId, u: UserId, member: bool, until: Option<int>): Db {
    db.(members := if member then db.members[(g, u) := until] else db.members - {(g, u)})
  }

  /**
   A membership edit is refused exactly for an unknown group or account, or, where a required policy is
   concerned, if it would leave no factor or no administrator who could undo it is asking.
   */
  lemma MembershipAcceptedIff(db: Db, g: GroupId, u: UserId, member: bool, until: Option<int>, session: Option<Session>,
      now: int)
    ensures SetMember(db, g, u, member, until, session, now).1.Ok? <==>
      && OfGroup(g) in db.policies && u in db.people
      && (IsRequired(db, OfGroup(g)) && MemberNow(db, g, u) != (if member then Some(until) else None) ==>
            && AllowedAfter(db, MemberOp(g, u, member, until, session), u) != {}
            && CanActivate(Joined(db, g, u, member, until), session, now))
  {
    if OfGroup(g) in db.policies && u in db.people {
      var tx, tx' := Joined(db, g, u, member, until), WithMembership(db, g, u, member, until, now);
      assert tx' == tx.(deadlines := tx'.deadlines);
      SameObligations(tx, tx', u);
      ActivatesAlike(tx, tx', session, now);
      JoinedAllows(db, g, u, member, until, session);
    }
  }

  lemma JoinedAllows(db: Db, g: GroupId, u: UserId, member: bool, until: Option<int>, session: Option<Session>)
    ensures AllowedFactors(Joined(db, g, u, member, until), u) ==
      AllowedAfter(db, MemberOp(g, u, member, until, session), u)
  {
    var tx, op := Joined(db, g, u, member, until), MemberOp(g, u, member, until, session);
    forall s ensures Applies(tx, u, s) <==> BindsAfter(db, op, u, s) {
    }
    AllowedBy(tx, db, op, u);
  }

  /** After a reset the user has no factor and, if bound, no grace left, whatever the policies' dates were. */
  lemma ResetEndsGrace(db: Db, u: UserId, now: int)
    requires Inv(db) && Required(db, u) && now >= 0
    ensures var db' := ResetMfa(db, u).0;
      && !InGrace(db', u, now) && (forall f :: (u, f) !in db'.factors) && !Compliant(db', u)
      && forall v :: v != u ==> (InGrace(db', v, now) <==> InGrace(db, v, now))
  {
    var db' := ResetMfa(db, u).0;
    var s :| s in db.policies && Applies(db, u, s);
    assert Applies(db', u, s) && (u, s) in db.deadlines && DueOf(db', u, s) == 0;
    forall v, r ensures Applies(db', v, r) <==> Applies(db, v, r) {
    }
    forall v, r | v != u ensures DueOf(db', v, r) == DueOf(db, v, r) {
      assert (v, r).0 == v;
    }
  }

  // ---- who may act ----------------------------------------------------------------------------------

  /** A factor the user has enrolled and every policy that binds them permits. */
  ghost predicate Usable(db: Db, u: UserId, f: Factor) {
    (u, f) in db.factors && forall s :: Applies(db, u, s) ==> f in db.policies[s].allowed
  }

  lemma UsableIff(db: Db, u: UserId, f: Factor)
    ensures Usable(db, u, f) <==> (u, f) in db.factors && f in AllowedFactors(db, u)
  {
    EveryFactor(f);
  }

  /** Who may activate a policy: an active administrator who, if bound by any, has just proved both factors. */
  lemma WhoMayActivate(db: Db, session: Session, now: int)
    ensures !CanActivate(db, None, now)
    ensures CanActivate(db, Some(session), now) <==>
      && session.user in db.people && db.people[session.user].admin && db.people[session.user].active
      && !session.enrollmentOnly && now < session.expiresAt
      && ((forall s :: !Applies(db, session.user, s))
          || (&& session.factorBy.Used? && Usable(db, session.user, session.factorBy.factor)
              && session.primaryAt.Some? && now - 300 < session.primaryAt.value <= now
              && session.factorAt.Some? && now - 300 < session.factorAt.value <= now))
  {
    if session.factorBy.Used? {
      UsableIff(db, session.user, session.factorBy.factor);
    }
  }

  /**
   Which sessions have full access: those bound by nothing, those within every grace that have nothing
   enrolled yet and did not use a recovery code, and those that proved an enrolled, permitted factor.
   */
  lemma WhoHasFullAccess(db: Db, session: Session, now: int)
    ensures SessionAllowed(db, session, now) <==>
      && !session.enrollmentOnly
      && (|| (forall s :: !Applies(db, session.user, s))
          || (&& session.factorBy != Recovery && (forall f :: !Usable(db, session.user, f))
              && forall s :: Applies(db, session.user, s) ==> now < DueOf(db, session.user, s))
          || (&& session.primaryAt.Some? && session.factorAt.Some?
              && session.factorBy.Used? && Usable(db, session.user, session.factorBy.factor)))
  {
    var u := session.user;
    forall f ensures Usable(db, u, f) <==> (u, f) in db.factors && f in AllowedFactors(db, u) {
      UsableIff(db, u, f);
    }
    assert Required(db, u) ==> (Compliant(db, u) <==> exists f :: Usable(db, u, f)) by {
      if f :| Usable(db, u, f) {
        assert (u, f) in db.factors && (u, f).0 == u;
      }
      if p :| p in db.factors && p.0 == u && p.1 in AllowedFactors(db, u) {
        assert p == (u, p.1) && Usable(db, u, p.1);
      }
    }
  }

  /** The edit in a transaction of its own, for the commit and the preview alike. */
  method ApplyEnrollmentPolicy(db: Db, s: Scope, required: bool, allowed: set<Factor>, grace: nat, revision: nat,
      now: int)
    returns (tx: Db, r: Outcome)
    requires WellFormed(db)
    ensures (tx, r) == EditPolicy(db, s, required, allowed, grace, revision, now)
    ensures r.Ok? ==> Settled(db, tx, now)
    ensures r.Ok? ==> EditStored(db, tx, s, required, allowed, grace, revision)
    ensures !r.Ok? ==> tx == db
  {
    if EditPolicy(db, s, required, allowed, grace, revision, now).1.Ok? {
      EditSettles(db, s, required, allowed, grace, revision, now);
      EditOkOnlyIf(db, s, required, allowed, grace, revision, now);
      WrittenThenDated(db, s, Policy(required, allowed, grace, revision + 1), now);
    }
    if allowed == {} || grace > 7_776_000 || revision == 0 {
      return db, Incompatible;
    }
    if s !in db.policies || db.policies[s].revision != revision {
      return db, Conflict;
    }
    var written := WithPolicy(db, s, Policy(required, allowed, grace, revision + 1));
    var dated := Dated(db, written, now);
    return dated.0, dated.1;
  }
}
