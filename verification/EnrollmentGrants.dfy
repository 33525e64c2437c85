/**
 Enrollment edits together with what they end: a change of the policies that bind a user ends the
 user's tokens, codes and pending requests in the same transaction, so that undoing the change cannot
 bring an old one back.
 */
module EnrollmentGrants {
  import opened Optional
  import opened Enrollment
  import opened EnrollmentEffects

  /** An outstanding token, code or pending request. */
  datatype Grant = Grant(user: UserId, id: string)

  datatype Tables = Tables(db: Db, grants: set<Grant>)

  datatype Change =
    | Edit(op: Op, revoke: bool)
    | Grants(grant: Grant)
    | Ends(grant: Grant)

  predicate RequiredGroup(db: Db, g: GroupId) {
    OfGroup(g) in db.policies && db.policies[OfGroup(g)].required
  }

  predicate MembershipChanges(db: Db, g: GroupId, u: UserId, member: bool, until: Option<int>) {
    if member then (g, u) !in db.members || db.members[(g, u)] != until else (g, u) in db.members
  }

  /** Whose grants a committed edit ends. `revoke` is the caller's wish when it edits an account. */
  predicate Ended(db: Db, op: Op, revoke: bool, u: UserId) {
    match op
    case PolicyOp(_, _, _, _, _, _) => true
    case MemberOp(g, v, member, until, _) => u == v && RequiredGroup(db, g)
      && MembershipChanges(db, g, v, member, until)
    case ExpireMemberOp(g, v) => u == v && RequiredGroup(db, g)
    case DeleteGroupOp(g, _) => RequiredGroup(db, g) && (g, u) in db.members
    case DelegateOp(v, _, _) => u == v
    case ResetOp(v) => u == v
    case DeleteUserOp(v) => u == v
    case RoleOp(v, person) => u == v && (revoke || (v in db.people && db.people[v].active && !person.active))
    case _ => false
  }

  function Surviving(grants: set<Grant>, db: Db, op: Op, revoke: bool): set<Grant> {
    set g | g in grants && !Ended(db, op, revoke, g.user)
  }

  function Without(grants: set<Grant>, u: UserId): set<Grant> {
    set g | g in grants && g.user != u
  }

  function Commit(t: Tables, c: Change, now: int): (Tables, Outcome) {
    match c
    case Edit(op, revoke) =>
      var (db, r) := Enrollment.Apply(t.db, op, now);
      (Tables(db, if r.Ok? then Surviving(t.grants, t.db, op, revoke) else t.grants), r)
    case Grants(g) => if g.user in t.db.people then (t.(grants := t.grants + {g}), Ok) else (t, Missing)
    case Ends(g) => (t.(grants := t.grants - {g}), Ok)
  }

  datatype Moment = Moment(change: Change, now: int)

  function Replay(t: Tables, moments: seq<Moment>): Tables
    decreases |moments|
  {
    if moments == [] then t else Replay(Commit(t, moments[0].change, moments[0].now).0, moments[1..])
  }

  /** The policies that bind a user, with the factors each leaves. */
  function Bindings(db: Db, u: UserId): map<Scope, set<Factor>> {
    map s | s in db.policies && Applies(db, u, s) :: db.policies[s].allowed
  }

  /** Grants belong to people, and the foreign keys of the other tables hold. */
  ghost predicate Sane(t: Tables) {
    WellFormed(t.db) && forall g :: g in t.grants ==> g.user in t.db.people
  }

  /** A required policy for administrators, so that being one, or holding a delegation, binds the user. */
  predicate BindsAdministrators(db: Db, u: UserId) {
    u in db.people && Administrators in db.policies && db.policies[Administrators].required
  }

  /**
   The changes of what binds a user that end none of their grants: an account edit that makes someone an
   administrator, or no longer one, who has no delegation, and the loss of an app record that was the
   only delegation of someone who is no administrator.
   */
  predicate Rebinds(db: Db, c: Change, u: UserId) {
    && c.Edit? && BindsAdministrators(db, u)
    && match c.op
       case RoleOp(v, person) => u == v && !Delegated(db, u) && person.admin != db.people[u].admin
       case DropRecordOp(app) => !db.people[u].admin && RowsOf(db, u) == {AppOwner(app)}
       case _ => false
  }

  lemma SameBindings(db: Db, db': Db, u: UserId)
    requires forall s :: Applies(db', u, s) <==> Applies(db, u, s)
    requires forall s :: Applies(db, u, s) ==> s in db'.policies && db'.policies[s].allowed == db.policies[s].allowed
    ensures Bindings(db', u) == Bindings(db, u)
  {
  }

  lemma OtherMembersUnbound(db: Db, g: GroupId, u: UserId, member: bool, until: Option<int>, session: Option<Session>,
      now: int, v: UserId)
    requires v != u || !RequiredGroup(db, g) || !MembershipChanges(db, g, u, member, until)
    ensures Bindings(SetMember(db, g, u, member, until, session, now).0, v) == Bindings(db, v)
  {
    var (db', r) := SetMember(db, g, u, member, until, session, now);
    if r.Ok? {
      assert forall s :: s != OfGroup(g) ==> (Applies(db', v, s) <==> Applies(db, v, s));
      SameBindings(db, db', v);
    }
  }

  lemma DeletionUnbinds(db: Db, g: GroupId, session: Option<Session>, now: int, v: UserId)
    requires !(RequiredGroup(db, g) && (g, v) in db.members)
    ensures Bindings(DeleteGroup(db, g, session, now).0, v) == Bindings(db, v)
  {
    var (db', r) := DeleteGroup(db, g, session, now);
    if r.Ok? {
      forall h: GroupId ensures (h, v) in db'.members <==> (h, v) in db.members && h != g {
        assert (h, v).0 == h;
      }
      SameBindings(db, db', v);
    }
  }

  /** The rows that decide what binds a user are as they were. */
  predicate SameStanding(db: Db, db': Db, u: UserId) {
    && db'.policies == db.policies && db'.members == db.members
    && u in db.people && u in db'.people && db'.people[u] == db.people[u] && RowsOf(db', u) == RowsOf(db, u)
  }

  lemma SameStandingBindsAlike(db: Db, db': Db, u: UserId)
    requires SameStanding(db, db', u)
    ensures Bindings(db', u) == Bindings(db, u)
  {
    assert forall s :: Applies(db', u, s) <==> Applies(db, u, s);
    SameBindings(db, db', u);
  }

  lemma PeopleEditsBindThemOnly(db: Db, op: Op, now: int, v: UserId)
    requires WellFormed(db) && v in db.people
    requires op.CreateUserOp? || op.RoleOp? || op.DelegateOp? || op.ResetOp?
    requires v != op.user || op.CreateUserOp?
    ensures Bindings(Enrollment.Apply(db, op, now).0, v) == Bindings(db, v)
  {
    SameStandingBindsAlike(db, Enrollment.Apply(db, op, now).0, v);
  }

  lemma DeletingSomeoneElse(db: Db, u: UserId, v: UserId)
    requires v != u
    ensures Bindings(DeleteUser(db, u).0, v) == Bindings(db, v)
  {
    var db' := DeleteUser(db, u).0;
    forall h: GroupId ensures (h, v) in db'.members <==> (h, v) in db.members {
      assert (h, v).1 == v;
    }
    SameBindings(db, db', v);
  }

  lemma FactorEditsBindNobody(db: Db, op: Op, now: int, v: UserId)
    requires op.AddFactorOp? || op.RemoveFactorOp? || op.CreateGroupOp?
    requires WellFormed(db)
    ensures Bindings(Enrollment.Apply(db, op, now).0, v) == Bindings(db, v)
  {
    SameBindings(db, Enrollment.Apply(db, op, now).0, v);
  }

  lemma RoleEditRebindsIff(db: Db, u: UserId, person: Person, revoke: bool, now: int)
    requires SetRole(db, u, person, now).1.Ok?
    ensures Bindings(SetRole(db, u, person, now).0, u) != Bindings(db, u) <==>
      Rebinds(db, Edit(RoleOp(u, person), revoke), u)
  {
    var db' := SetRole(db, u, person, now).0;
    assert forall s :: s != Administrators ==> (Applies(db', u, s) <==> Applies(db, u, s));
    if Rebinds(db, Edit(RoleOp(u, person), revoke), u) {
      assert Administrators in Bindings(db', u) <==> Administrators !in Bindings(db, u);
    } else {
      SameBindings(db, db', u);
    }
  }

  lemma LostRecordRebindsIff(db: Db, app: string, revoke: bool, u: UserId)
    requires WellFormed(db) && u in db.people
    ensures Bindings(DropRecord(db, app), u) != Bindings(db, u) <==> Rebinds(db, Edit(DropRecordOp(app), revoke), u)
  {
    var db' := DropRecord(db, app);
    assert RowsOf(db', u) == RowsOf(db, u) - {AppOwner(app)};
    assert Delegated(db', u) <==> Delegated(db, u) && RowsOf(db, u) != {AppOwner(app)};
    assert forall s :: s != Administrators ==> (Applies(db', u, s) <==> Applies(db, u, s));
    if Rebinds(db, Edit(DropRecordOp(app), revoke), u) {
      assert Administrators in Bindings(db, u) && Administrators !in Bindings(db', u);
    } else {
      SameBindings(db, db', u);
    }
  }

  /**
   Whoever still has a grant after an edit is bound as before, if and only if the edit is neither a role
   edit nor the loss of an app record that rebinds them.
   */
  lemma ChangedBindingsEndGrants(t: Tables, c: Change, now: int, g: Grant)
    requires Sane(t) && g in t.grants && g in Commit(t, c, now).0.grants
    ensures Bindings(Commit(t, c, now).0.db, g.user) != Bindings(t.db, g.user) <==>
      Rebinds(t.db, c, g.user) && Commit(t, c, now).1.Ok?
  {
    if c.Edit? && Enrollment.Apply(t.db, c.op, now).1.Ok? {
      match c.op
      case MemberOp(h, u, member, until, session) =>
        OtherMembersUnbound(t.db, h, u, member, until, session, now, g.user);
      case DeleteGroupOp(h, session) => DeletionUnbinds(t.db, h, session, now, g.user);
      case ExpireMemberOp(h, u) => SameBindings(t.db, Enrollment.Apply(t.db, c.op, now).0, g.user);
      case PolicyOp(_, _, _, _, _, _) =>
      case CreateGroupOp(_) => FactorEditsBindNobody(t.db, c.op, now, g.user);
      case AddFactorOp(_, _) => FactorEditsBindNobody(t.db, c.op, now, g.user);
      case RemoveFactorOp(_, _) => FactorEditsBindNobody(t.db, c.op, now, g.user);
      case DeleteUserOp(u) => DeletingSomeoneElse(t.db, u, g.user);
      case DropRecordOp(app) => LostRecordRebindsIff(t.db, app, c.revoke, g.user);
      case RoleOp(u, person) =>
        if u == g.user {
          RoleEditRebindsIff(t.db, u, person, c.revoke, now);
        } else {
          PeopleEditsBindThemOnly(t.db, c.op, now, g.user);
        }
      case _ => PeopleEditsBindThemOnly(t.db, c.op, now, g.user);
    } else {
      assert Commit(t, c, now).0.db == t.db;
    }
  }

  /** Which grants an accepted edit ends, edit by edit. */
  lemma WhichGrantsEnd(t: Tables, op: Op, revoke: bool, now: int, x: Grant)
    requires x in t.grants && Enrollment.Apply(t.db, op, now).1.Ok?
    ensures var stays := x in Commit(t, Edit(op, revoke), now).0.grants;
      && (op.PolicyOp? ==> !stays)
      && (op.MemberOp? && IsRequired(t.db, OfGroup(op.group)) ==>
            (stays <==> x.user != op.user || MemberNow(t.db, op.group, x.user) == if op.member then Some(op.until)
              else None))
      && (op.ExpireMemberOp? && IsRequired(t.db, OfGroup(op.group)) ==> (stays <==> x.user != op.user))
      && (op.DeleteGroupOp? && IsRequired(t.db, OfGroup(op.group)) ==> (stays <==> (op.group, x.user) !in t.db.members))
      && ((op.MemberOp? || op.ExpireMemberOp? || op.DeleteGroupOp?) && !IsRequired(t.db, OfGroup(op.group)) ==> stays)
      && (op.DelegateOp? || op.ResetOp? || op.DeleteUserOp? ==> (stays <==> x.user != op.user))
      && (op.RoleOp? ==>
            (stays <==> x.user != op.user || (!revoke && !(t.db.people[op.user].active && !op.person.active))))
      && (op.CreateUserOp? || op.CreateGroupOp? || op.AddFactorOp? || op.RemoveFactorOp? || op.DropRecordOp? ==> stays)
  {
  }

  lemma CommitKeeps(t: Tables, c: Change, now: int)
    requires Sane(t) && Inv(t.db)
    ensures Sane(Commit(t, c, now).0) && Inv(Commit(t, c, now).0.db)
  {
    if c.Edit? {
      Enrollment.StepKeeps(t.db, c.op, now);
      PeopleStay(t.db, c.op, now);
    }
  }

  /** Only a deletion removes a person. */
  lemma PeopleStay(db: Db, op: Op, now: int)
    ensures db.people.Keys - (if op.DeleteUserOp? then {op.user} else {}) <= Enrollment.Apply(db, op, now).0.people.Keys
  {
  }

  predicate NotReissued(moments: seq<Moment>, g: Grant) {
    forall i :: 0 <= i < |moments| ==> moments[i].change != Grants(g)
  }

  predicate NeverRebound(t: Tables, moments: seq<Moment>, u: UserId)
    decreases |moments|
  {
    || moments == []
    || (!Rebinds(t.db, moments[0].change, u)
        && NeverRebound(Commit(t, moments[0].change, moments[0].now).0, moments[1..], u))
  }

  /**
   A grant that is still outstanding after any run in which it was not issued again, and in which no
   role edit or lost app record rebound its user, means that exactly the policies that bound the user at the start bind
   them still: leaving a group and joining it again, or any other change undone, ends the grant.
   */
  lemma {:induction false} OutstandingMeansBoundAlike(t: Tables, moments: seq<Moment>, g: Grant)
    requires Sane(t) && Inv(t.db) && NotReissued(moments, g) && NeverRebound(t, moments, g.user)
    requires g in t.grants && g in Replay(t, moments).grants
    ensures Bindings(Replay(t, moments).db, g.user) == Bindings(t.db, g.user)
    decreases |moments|
  {
    if moments != [] {
      var t' := Commit(t, moments[0].change, moments[0].now).0;
      CommitKeeps(t, moments[0].change, moments[0].now);
      if g !in t'.grants {
        EndedStaysEnded(t', moments[1..], g);
      }
      ChangedBindingsEndGrants(t, moments[0].change, moments[0].now, g);
      OutstandingMeansBoundAlike(t', moments[1..], g);
    }
  }

  const NEW := Tables(FRESH, {})

  /** Someone who owns one app and is no administrator, and a policy for administrators that binds them. */
  predicate Owner(db: Db, u: UserId, app: string) {
    BindsAdministrators(db, u) && !db.people[u].admin && RowsOf(db, u) == {AppOwner(app)}
  }

  /** Once the app's record is gone, the policy no longer binds its owner, whose grants all stay. */
  lemma LostRecordFreesItsOwner(t: Tables, app: string, g: Grant, now: int)
    requires Sane(t) && g in t.grants && Owner(t.db, g.user, app)
    ensures var t' := Commit(t, Edit(DropRecordOp(app), false), now).0;
      && t'.grants == t.grants
      && Administrators in Bindings(t.db, g.user) && Administrators !in Bindings(t'.db, g.user)
  {
    assert Surviving(t.grants, t.db, DropRecordOp(app), false) == t.grants;
    LostRecordRebindsIff(t.db, app, false, g.user);
    var db' := DropRecord(t.db, app);
    assert RowsOf(db', g.user) == {};
  }

  /** An administrator, and Ann, who owns the shop and holds a token. */
  function Shop(): Tables {
    var policies := map[Organization := Policy(false, FACTORS, 0, 1), Administrators := Policy(true, {Totp}, 0, 2)];
    var people := map["root" := Person(true, true), "ann" := Person(false, true)];
    var deadlines := map[("root", Administrators) := 10, ("ann", Administrators) := 10];
    Tables(Db(people, map["ann" := {AppOwner("shop")}], map[], policies, deadlines, {("root", Totp)}),
           {Grant("ann", "token")})
  }

  lemma ShopIsSane()
    ensures Sane(Shop()) && Inv(Shop().db)
  {
    var db := Shop().db;
    forall u | u in db.people ensures Totp in AllowedFactors(db, u) {
      EveryFactor(Totp);
    }
    forall u, s | Applies(db, u, s) ensures (u, s) in db.deadlines {
      assert s == Administrators;
    }
  }

  /** When the shop's record is deleted or linked away, nothing binds Ann any more, and the token stays. */
  lemma LostShopFreesAnn(now: int)
    ensures var t, t' := Shop(), Commit(Shop(), Edit(DropRecordOp("shop"), false), now).0;
      && Sane(t) && Inv(t.db) && Grant("ann", "token") in t'.grants
      && Administrators in Bindings(t.db, "ann") && Bindings(t'.db, "ann") == map[]
  {
    ShopIsSane();
    LostRecordFreesItsOwner(Shop(), "shop", Grant("ann", "token"), now);
  }

  lemma {:induction false} ReplayKeeps(t: Tables, moments: seq<Moment>)
    requires Sane(t) && Inv(t.db)
    ensures Sane(Replay(t, moments)) && Inv(Replay(t, moments).db)
    decreases |moments|
  {
    if moments != [] {
      CommitKeeps(t, moments[0].change, moments[0].now);
      ReplayKeeps(Commit(t, moments[0].change, moments[0].now).0, moments[1..]);
    }
  }

  /** The same from any point of any history of an installation on. */
  lemma HistoryMeansBoundAlike(before: seq<Moment>, after: seq<Moment>, g: Grant)
    requires NotReissued(after, g) && NeverRebound(Replay(NEW, before), after, g.user)
    requires g in Replay(NEW, before).grants && g in Replay(Replay(NEW, before), after).grants
    ensures Bindings(Replay(Replay(NEW, before), after).db, g.user) == Bindings(Replay(NEW, before).db, g.user)
  {
    FreshKeeps();
    ReplayKeeps(NEW, before);
    OutstandingMeansBoundAlike(Replay(NEW, before), after, g);
  }

  /** What has ended stays ended until it is issued anew. */
  lemma {:induction false} EndedStaysEnded(t: Tables, moments: seq<Moment>, g: Grant)
    requires g !in t.grants && NotReissued(moments, g)
    ensures g !in Replay(t, moments).grants
    decreases |moments|
  {
    if moments != [] {
      EndedStaysEnded(Commit(t, moments[0].change, moments[0].now).0, moments[1..], g);
    }
  }

  // ---- previews -------------------------------------------------------------------------------------

  /** A preview of a group's policy looks at its members only. */
  predicate InView(db: Db, scope: Scope, u: UserId) {
    scope.OfGroup? ==> (scope.group, u) in db.members
  }

  function Affected(db: Db, scope: Scope): set<UserId> {
    set u | u in db.people && db.people[u].active && Required(db, u) && InView(db, scope, u)
  }

  function MissingFactor(db: Db, scope: Scope): set<UserId> {
    set u | u in Affected(db, scope) && !Compliant(db, u)
  }

  function Restricted(db: Db, scope: Scope, sessions: map<string, Session>, now: int): set<string> {
    set i | i in sessions && sessions[i].user in db.people && !SessionAllowed(db, sessions[i], now)
      && now < sessions[i].expiresAt && InView(db, scope, sessions[i].user)
  }

  /** Whom the counts count, policy by policy and factor by factor. */
  lemma WhomThePreviewCounts(db: Db, scope: Scope, sessions: map<string, Session>, now: int, u: UserId, i: string)
    ensures u in Affected(db, scope) <==>
      && u in db.people && db.people[u].active && (exists s :: Applies(db, u, s))
      && (scope.OfGroup? ==> (scope.group, u) in db.members)
    ensures u in MissingFactor(db, scope) <==> u in Affected(db, scope) && forall f :: !Usable(db, u, f)
    ensures i in Restricted(db, scope, sessions, now) <==>
      && i in sessions && sessions[i].user in db.people && now < sessions[i].expiresAt
      && !SessionAllowed(db, sessions[i], now) && (scope.OfGroup? ==> (scope.group, sessions[i].user) in db.members)
  {
    forall f ensures Usable(db, u, f) <==> (u, f) in db.factors && f in AllowedFactors(db, u) {
      UsableIff(db, u, f);
    }
    if p :| p in db.factors && p.0 == u && p.1 in AllowedFactors(db, u) {
      assert p == (u, p.1) && Usable(db, u, p.1);
    }
    if f :| Usable(db, u, f) {
      assert (u, f) in db.factors && (u, f).0 == u;
    }
  }

  datatype Preview = Preview(affected: nat, missingFactor: nat, restricted: nat, can: bool)

  // ---- the store ------------------------------------------------------------------------------------

  lemma PolicyPromises(db: Db, s: Scope, required: bool, allowed: set<Factor>, grace: nat, revision: nat,
      session: Option<Session>, now: int)
    ensures var (db', r) := SetPolicy(db, s, required, allowed, grace, revision, session, now);
      r.Ok? ==>
        && EditStored(db, db', s, required, allowed, grace, revision) && Current(db, s, allowed, grace, revision)
        && CanActivate(db', session, now)
  {
    if SetPolicy(db, s, required, allowed, grace, revision, session, now).1.Ok? {
      AcceptedEditIsStored(db, s, required, allowed, grace, revision, session, now);
      EditOkOnlyIf(db, s, required, allowed, grace, revision, now);
    }
  }

  /** The transactions on mutable tables. A refused one leaves them as they were. */
  class EnrollmentStore {
    var db: Db
    var grants: set<Grant>

    constructor ()
      ensures db == FRESH && grants == {} && Inv(db)
    {
      db, grants := FRESH, {};
      FreshKeeps();
    }

    function View(): Tables
      reads this
    {
      Tables(db, grants)
    }

    /** An accepted edit settles everyone and ends every grant there is. */
    method SetEnrollmentPolicy(s: Scope, required: bool, allowed: set<Factor>, grace: nat, revision: nat,
        session: Option<Session>, now: int)
      returns (r: Outcome)
      requires Inv(db)
      modifies this
      ensures (View(), r)
        == Commit(old(View()), Edit(PolicyOp(s, required, allowed, grace, revision, session), false), now)
      ensures Inv(db) && (r.Ok? ==> Settled(old(db), db, now) && grants == {})
      ensures r.Ok? ==> EditStored(old(db), db, s, required, allowed, grace, revision)
      ensures r.Ok? ==> Current(old(db), s, allowed, grace, revision) && CanActivate(db, session, now)
      ensures !r.Ok? ==> db == old(db) && grants == old(grants)
    {
      PolicyKeeps(db, s, required, allowed, grace, revision, session, now);
      PolicyPromises(db, s, required, allowed, grace, revision, session, now);
      var tx;
      tx, r := ApplyEnrollmentPolicy(db, s, required, allowed, grace, revision, now);
      if !r.Ok? {
        return;
      }
      if !CanActivate(tx, session, now) {
        return NeedsAdministrator;
      }
      assert Surviving(grants, db, PolicyOp(s, required, allowed, grace, revision, session), false) == {};
      db := tx;
      grants := {};
    }

    /**
     The preview counts what a valid edit would leave, whoever asks, and says yes exactly when the commit
     would go through for the one who asks.
     */
    method PreviewEnrollmentPolicy(s: Scope, required: bool, allowed: set<Factor>, grace: nat, revision: nat,
                                   sessions: map<string, Session>, session: Option<Session>, now: int)
      returns (p: Option<Preview>)
      requires Inv(db)
      ensures p.Some? <==> EditPolicy(db, s, required, allowed, grace, revision, now).1.Ok?
      ensures p.Some? ==>
        var db' := EditPolicy(db, s, required, allowed, grace, revision, now).0;
        p.value == Preview(|Affected(db', s)|, |MissingFactor(db', s)|, |Restricted(db', s, sessions, now)|,
                           CanActivate(db', session, now))
      ensures p.Some? && p.value.can <==> SetPolicy(db, s, required, allowed, grace, revision, session, now).1.Ok?
    {
      var tx, r := ApplyEnrollmentPolicy(db, s, required, allowed, grace, revision, now);
      if !r.Ok? {
        return None;
      }
      var affected, missing, restricted := |Affected(tx, s)|, |MissingFactor(tx, s)|,
        |Restricted(tx, s, sessions, now)|;
      return Some(Preview(affected, missing, restricted, CanActivate(tx, session, now)));
    }

    method SetGroupMembership(g: GroupId, u: UserId, member: bool, until: Option<int>, session: Option<Session>,
        now: int)
      returns (r: Outcome)
      requires Inv(db)
      modifies this
      ensures (View(), r) == Commit(old(View()), Edit(MemberOp(g, u, member, until, session), false), now)
      ensures Inv(db)
      ensures r.Ok? ==> MemberNow(db, g, u) == if member then Some(until) else None
      ensures forall x :: x in grants <==>
        (x in old(grants)
         && !(r.Ok? && x.user == u && IsRequired(old(db), OfGroup(g))
            && MembershipChanges(old(db), g, u, member, until)))
    {
      MemberKeeps(db, g, u, member, until, session, now);
      MemberCommit(View(), g, u, member, until, session, now);
      var tx, ends;
      tx, ends, r := ChangeMembership(db, g, u, member, until, session, now);
      if r.Ok? {
        db := tx;
        if ends {
          grants := Without(grants, u);
        }
      }
    }

    /** Replaces a user's delegations, one inserted row at a time, each under the insert trigger. */
    method SetDelegations(u: UserId, rows: seq<Delegation>, apps: set<string>, now: int) returns (r: Outcome)
      requires Inv(db)
      modifies this
      ensures (View(), r) == Commit(old(View()), Edit(DelegateOp(u, rows, apps), false), now)
      ensures Inv(db) && (r.Ok? ==> RowsOf(db, u) == Rows(rows))
      ensures forall x :: x in grants <==> x in old(grants) && !(r.Ok? && x.user == u)
    {
      DelegateKeeps(db, u, rows, apps, now);
      var tx;
      tx, r := InsertDelegations(db, u, rows, apps, now);
      if r.Ok? {
        assert Without(grants, u) == Surviving(grants, db, DelegateOp(u, rows, apps), false);
        db := tx;
        grants := Without(grants, u);
      }
    }
  }

  method WriteMembership(db: Db, g: GroupId, u: UserId, member: bool, until: Option<int>, now: int)
      returns (tx: Db, changed: bool)
    ensures tx == WithMembership(db, g, u, member, until, now)
    ensures changed <==> MembershipChanges(db, g, u, member, until)
  {
    tx, changed := db, false;
    if member {
      if (g, u) !in tx.members {
        tx := tx.(members := tx.members[(g, u) := until]);
        tx := SetMissing(tx, u, {OfGroup(g)}, now);
        changed := true;
      } else if tx.members[(g, u)] != until {
        tx := tx.(members := tx.members[(g, u) := until]);
        changed := true;
      } else {
        assert tx.members[(g, u) := until] == tx.members;
      }
    } else {
      changed := (g, u) in tx.members;
      tx := tx.(members := tx.members - {(g, u)});
    }
  }

  /** The change with its checks; `ends` says that the user's grants go with it. */
  method ChangeMembership(db: Db, g: GroupId, u: UserId, member: bool, until: Option<int>, session: Option<Session>,
      now: int)
    returns (tx: Db, ends: bool, r: Outcome)
    ensures r == SetMember(db, g, u, member, until, session, now).1
    ensures r.Ok? ==> tx == SetMember(db, g, u, member, until, session, now).0
    ensures r.Ok? ==> (ends <==> RequiredGroup(db, g) && MembershipChanges(db, g, u, member, until))
  {
    if OfGroup(g) !in db.policies || u !in db.people {
      return db, false, Missing;
    }
    tx, ends := WriteMembership(db, g, u, member, until, now);
    ends := ends && db.policies[OfGroup(g)].required;
    if ends && AllowedFactors(tx, u) == {} {
      return tx, ends, Incompatible;
    }
    if ends && !CanActivate(tx, session, now) {
      return tx, ends, NeedsAdministrator;
    }
    r := Ok;
  }

  lemma MemberCommit(t: Tables, g: GroupId, u: UserId, member: bool, until: Option<int>, session: Option<Session>,
      now: int)
    ensures var (db, r) := SetMember(t.db, g, u, member, until, session, now);
      var ends := RequiredGroup(t.db, g) && MembershipChanges(t.db, g, u, member, until);
      Commit(t, Edit(MemberOp(g, u, member, until, session), false), now) ==
        (Tables(db, if r.Ok? && ends then Without(t.grants, u) else t.grants), r)
  {
    var op := MemberOp(g, u, member, until, session);
    if RequiredGroup(t.db, g) && MembershipChanges(t.db, g, u, member, until) {
      assert Surviving(t.grants, t.db, op, false) == Without(t.grants, u);
    } else {
      assert Surviving(t.grants, t.db, op, false) == t.grants;
    }
    MemberRefusal(t.db, g, u, member, until, session, now);
  }

  lemma MemberRefusal(db: Db, g: GroupId, u: UserId, member: bool, until: Option<int>, session: Option<Session>,
      now: int)
    ensures !SetMember(db, g, u, member, until, session, now).1.Ok? ==>
      SetMember(db, g, u, member, until, session, now).0 == db
  {
  }

  method InsertDelegations(db: Db, u: UserId, rows: seq<Delegation>, apps: set<string>, now: int)
      returns (tx: Db, r: Outcome)
    ensures r == SetDelegated(db, u, rows, apps, now).1
    ensures r.Ok? ==> tx == SetDelegated(db, u, rows, apps, now).0
  {
    if u !in db.people {
      return db, Missing;
    }
    tx := WithDelegations(db, u, {});
    assert Rows(rows[..0]) == {};
    for k := 0 to |rows|
      invariant forall i :: 0 <= i < k ==> Known(rows[i], apps)
      invariant k > 0 ==> AllowedFactors(WithDelegations(db, u, Rows(rows)), u) != {}
      invariant tx == Inserted(db, u, rows, k, now)
    {
      if !Known(rows[k], apps) {
        return db, NoSuchApp;
      }
      NextRow(db, u, rows, k, now);
      tx := WithDelegations(tx, u, RowsOf(tx, u) + {rows[k]});
      if AllowedFactors(tx, u) == {} {
        return db, Incompatible;
      }
      tx := SetMissing(tx, u, {Administrators}, now);
    }
    AllInserted(db, u, rows, now);
    r := Ok;
  }

  /** The tables after the first `k` rows: the date, if one was missing, came with the first. */
  ghost function Inserted(db: Db, u: UserId, rows: seq<Delegation>, k: nat, now: int): Db
    requires k <= |rows|
  {
    WithDelegations(db, u, Rows(rows[..k])).(deadlines :=
      if k == 0 then db.deadlines
      else SetMissing(WithDelegations(db, u, Rows(rows)), u, {Administrators}, now).deadlines)
  }

  lemma AllInserted(db: Db, u: UserId, rows: seq<Delegation>, now: int)
    ensures Inserted(db, u, rows, |rows|, now) ==
      var all := WithDelegations(db, u, Rows(rows));
      if rows == [] then all else SetMissing(all, u, {Administrators}, now)
  {
    assert rows[..|rows|] == rows;
  }

  lemma NextRow(db: Db, u: UserId, rows: seq<Delegation>, k: nat, now: int)
    requires k < |rows|
    ensures var tx := Inserted(db, u, rows, k, now);
      var next := WithDelegations(tx, u, RowsOf(tx, u) + {rows[k]});
      && AllowedFactors(next, u) == AllowedFactors(WithDelegations(db, u, Rows(rows)), u)
      && SetMissing(next, u, {Administrators}, now) == Inserted(db, u, rows, k + 1, now)
  {
    var all := WithDelegations(db, u, Rows(rows));
    var tx := Inserted(db, u, rows, k, now);
    var next := WithDelegations(tx, u, RowsOf(tx, u) + {rows[k]});
    OneMoreRow(rows, k);
    assert next.delegations == db.delegations[u := Rows(rows[..k + 1])];
    AnyRowsBindAlike(all, next, u);
    DatedOnce(all, next, u, now);
  }

  lemma OneMoreRow(rows: seq<Delegation>, k: nat)
    requires k < |rows|
    ensures Rows(rows[..k + 1]) == Rows(rows[..k]) + {rows[k]} && Rows(rows) != {}
  {
    var more := rows[..k + 1];
    assert rows[k] in Rows(rows) && more[k] == rows[k] && rows[k] in Rows(more);
    forall d | d in Rows(rows[..k]) ensures d in Rows(more) {
      var i :| 0 <= i < k && rows[..k][i] == d;
      assert more[i] == d;
    }
    forall d | d in Rows(more) ensures d in Rows(rows[..k]) + {rows[k]} {
      var i :| 0 <= i < |more| && more[i] == d;
      assert i < k ==> rows[..k][i] == d;
    }
  }

  /** Which rows they are makes no difference to what binds the user. */
  lemma AnyRowsBindAlike(db: Db, db': Db, u: UserId)
    requires db' == db.(delegations := db'.delegations, deadlines := db'.deadlines)
    requires Delegated(db, u) && Delegated(db', u)
    ensures forall s :: Applies(db', u, s) <==> Applies(db, u, s)
    ensures AllowedFactors(db', u) == AllowedFactors(db, u)
  {
    assert forall s :: Applies(db', u, s) <==> Applies(db, u, s);
  }

  lemma DateOfOne(db: Db, u: UserId, s: Scope, now: int)
    ensures SetMissing(db, u, {s}, now).deadlines ==
      if Applies(db, u, s) && (u, s) !in db.deadlines then db.deadlines[(u, s) := now + db.policies[s].grace]
      else db.deadlines
  {
    var bound := set r | r in {s} && Applies(db, u, r) :: (u, r);
    assert bound == if Applies(db, u, s) then {(u, s)} else {};
  }

  /** The trigger sets the date at the first row, and finds it set at the others. */
  lemma DatedOnce(db: Db, db': Db, u: UserId, now: int)
    requires db' == db.(delegations := db'.delegations, deadlines := db'.deadlines)
    requires Delegated(db, u) && Delegated(db', u)
    requires db'.deadlines == db.deadlines || db'.deadlines == SetMissing(db, u, {Administrators}, now).deadlines
    ensures SetMissing(db', u, {Administrators}, now).deadlines == SetMissing(db, u, {Administrators}, now).deadlines
  {
    DateOfOne(db, u, Administrators, now);
    DateOfOne(db', u, Administrators, now);
  }
}
