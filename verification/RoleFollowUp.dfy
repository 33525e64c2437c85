/**
 What a change of membership does to the apps that give the group's members a role, and why a token or
 code never outlives a change of the roles it stands for.
 */
module RoleFollowUp {
  import opened Optional
  import opened Directory
  import opened Grants
  import opened Expiry
  import opened AccessRuns
  import opened AccessLocality
  import opened Revisions

  /** `st'` has exactly the grants of `st` whose user and client pass, as they were. */
  ghost predicate Leaves(st: Store, st': Store, keeps: (UserId, ClientId) -> bool) {
    && st'.tokens.Keys == st.tokens.Keys
    && (forall j :: j in st.tokens ==>
          && st'.tokens[j] == st.tokens[j].(revoked := st'.tokens[j].revoked)
          && (LiveToken(st', j) <==> LiveToken(st, j) && keeps(st.tokens[j].user, st.tokens[j].client)))
    && (forall i :: i in st'.codes <==> i in st.codes && keeps(st.codes[i].user, st.codes[i].client))
    && (forall i :: i in st'.codes ==> st'.codes[i] == st.codes[i])
  }

  lemma LeavesTwice(a: Store, b: Store, c: Store, p: (UserId, ClientId) -> bool, q: (UserId, ClientId) -> bool,
      r: (UserId, ClientId) -> bool)
    requires Leaves(a, b, p) && Leaves(b, c, q) && forall u, x :: r(u, x) <==> p(u, x) && q(u, x)
    ensures Leaves(a, c, r)
  {
  }

  lemma RevokeUsersLeaves(st: Store, users: set<UserId>)
    ensures Leaves(st, RevokeUsers(st, users), (u: UserId, c: ClientId) => u !in users)
  {
  }

  lemma RoleChangeLeaves(st: Store, apps: set<AppId>, users: set<UserId>)
    ensures Leaves(st, RoleChange(st, apps, users),
      (u: UserId, c: ClientId) => !(u in users && c in ClientsOf(st.dir, apps)))
  {
  }

  lemma RevokeLostLeaves(st: Store, now: int)
    ensures Leaves(st, RevokeLost(st, now), (u: UserId, c: ClientId) => ClientAccess(st.dir, c, u, now))
  {
  }

  lemma SameGrantRows(st: Store, d: Directory)
    ensures Leaves(st, st.(dir := d), (u: UserId, c: ClientId) => true)
  {
  }

  function Bumped(app: App): App {
    app.(revision := app.revision + 1, roleRevision := app.roleRevision + 1)
  }

  /** The revisions of the apps that map the group to a role went up by one, and nothing else of any app. */
  ghost predicate RoleRevisions(d: Directory, d': Directory, g: GroupId, bumped: bool) {
    && d'.apps.Keys == d.apps.Keys
    && forall a :: a in d.apps ==> d'.apps[a] == (if bumped && MapsRole(d, g, a) then Bumped(d.apps[a]) else d.apps[a])
  }

  lemma RoleChangeRevisions(d: Directory, st: Store, g: GroupId, users: set<UserId>)
    requires st.dir.apps == d.apps
    ensures RoleRevisions(d, RoleChange(st, MappedApps(d, g), users).dir, g, users != {})
  {
    forall a ensures a in MappedApps(d, g) <==> MapsRole(d, g, a) {
    }
  }

  predicate MembershipChanges(d: Directory, g: GroupId, u: UserId, member: bool, until: Option<int>) {
    if member then (g, u) !in d.members || d.members[(g, u)] != until else (g, u) in d.members
  }

  /** Whose grants the change ends by itself: all of them under a required policy, else those that carry a role. */
  predicate EndedBy(d: Directory, g: GroupId, c: ClientId) {
    g in d.policed || RoleClient(d, g, c)
  }

  lemma Leaving(st: Store, users: set<UserId>, g: GroupId)
    ensures var st2 := if g in st.dir.policed then RevokeUsers(st, users) else st;
      && st2.dir == st.dir
      && Leaves(st, st2, (u: UserId, c: ClientId) => !(u in users && g in st.dir.policed))
  {
    RevokeUsersLeaves(st, users);
  }

  /** The change's own follow-up, whatever rows it wrote before. */
  lemma FollowUpEnds(st: Store, g: GroupId, users: set<UserId>)
    ensures var st3 := MembershipFollowUp(st, g, users);
      && RoleRevisions(st.dir, st3.dir, g, users != {})
      && Leaves(st, st3, (u: UserId, c: ClientId) => !(u in users && EndedBy(st.dir, g, c)))
  {
    var st2 := if g in st.dir.policed then RevokeUsers(st, users) else st;
    var st3 := RoleChange(st2, MappedApps(st.dir, g), users);
    Leaving(st, users, g);
    RoleChangeRevisions(st.dir, st2, g, users);
    RoleChangeLeaves(st2, MappedApps(st.dir, g), users);
    forall c ensures c in ClientsOf(st.dir, MappedApps(st.dir, g)) <==> RoleClient(st.dir, g, c) {
      MappedClients(st.dir, g, c);
    }
    LeavesTwice(st, st2, st3, (u: UserId, c: ClientId) => !(u in users && g in st.dir.policed),
      (u: UserId, c: ClientId) => !(u in users && c in ClientsOf(st2.dir, MappedApps(st.dir, g))),
      (u: UserId, c: ClientId) => !(u in users && EndedBy(st.dir, g, c)));
  }

  /** Rows of other tables play no part. */
  lemma SameMappings(d: Directory, d': Directory, e: Directory, g: GroupId, bumped: bool)
    requires d'.apps == d.apps && d'.roles == d.roles && d'.roleGroups == d.roleGroups && d'.policed == d.policed
    requires RoleRevisions(d', e, g, bumped)
    ensures RoleRevisions(d, e, g, bumped)
    ensures forall c :: EndedBy(d', g, c) <==> EndedBy(d, g, c)
  {
    forall a ensures MapsRole(d', g, a) <==> MapsRole(d, g, a) {
    }
    forall c ensures RoleClient(d', g, c) <==> RoleClient(d, g, c) {
      if a :| a in d.apps && AppOf(d, c, a) && MapsRole(d, g, a) {
        assert AppOf(d', c, a) && MapsRole(d', g, a);
      }
      if a :| a in d'.apps && AppOf(d', c, a) && MapsRole(d', g, a) {
        assert AppOf(d, c, a) && MapsRole(d, g, a);
      }
    }
  }

  predicate SameRoleRows(d: Directory, d': Directory) {
    d'.apps == d.apps && d'.roles == d.roles && d'.roleGroups == d.roleGroups && d'.policed == d.policed
  }

  /** Rows are written, the follow-up runs where they changed, and then the one for lost access. */
  lemma WriteThenFollowUp(st: Store, d: Directory, g: GroupId, users: set<UserId>, changed: bool, now: int)
    requires SameRoleRows(st.dir, d)
    ensures var st1 := st.(dir := d);
      var st3 := if changed then MembershipFollowUp(st1, g, users) else st1;
      && RoleRevisions(st.dir, st3.dir, g, changed && users != {})
      && Leaves(st, RevokeLost(st3, now), (v: UserId, c: ClientId) =>
           !(v in users && changed && EndedBy(st.dir, g, c)) && ClientAccess(st3.dir, c, v, now))
  {
    var st1 := st.(dir := d);
    var st3 := if changed then MembershipFollowUp(st1, g, users) else st1;
    FollowUpEnds(st1, g, users);
    SameMappings(st.dir, d, st3.dir, g, changed && users != {});
    SameGrantRows(st, d);
    LastStep(st, st1, st3, g, users, changed, now);
  }

  lemma LastStep(st: Store, st1: Store, st3: Store, g: GroupId, users: set<UserId>, changed: bool, now: int)
    requires Leaves(st, st1, (v: UserId, c: ClientId) => true)
    requires if changed then Leaves(st1, st3, (v: UserId, c: ClientId) => !(v in users && EndedBy(st1.dir, g, c)))
             else st3 == st1
    requires forall c :: EndedBy(st1.dir, g, c) <==> EndedBy(st.dir, g, c)
    ensures Leaves(st, RevokeLost(st3, now), (v: UserId, c: ClientId) =>
      !(v in users && changed && EndedBy(st.dir, g, c)) && ClientAccess(st3.dir, c, v, now))
  {
    var all := (v: UserId, c: ClientId) => true;
    var spared := (v: UserId, c: ClientId) => !(v in users && changed && EndedBy(st.dir, g, c));
    if changed {
      LeavesTwice(st, st1, st3, all, (v: UserId, c: ClientId) => !(v in users && EndedBy(st1.dir, g, c)), spared);
    } else {
      assert Leaves(st, st3, spared);
    }
    RevokeLostLeaves(st3, now);
    LeavesTwice(st, st3, RevokeLost(st3, now), spared, (v: UserId, c: ClientId) => ClientAccess(st3.dir, c, v, now),
      (v: UserId, c: ClientId) => !(v in users && changed && EndedBy(st.dir, g, c))
        && ClientAccess(st3.dir, c, v, now));
  }

  /**
   An accepted change of a membership, app by app and grant by grant: every app that gives the group a
   role has both revisions one higher; of the user's grants those at such an app's client end, and all of
   them if the group's policy is required; and of everybody's, whatever has no access.
   */
  lemma MembershipEffect(st: Store, g: GroupId, u: UserId, member: bool, until: Option<int>, admitted: bool, now: int)
    requires SetMembership(st, g, u, member, until, admitted, now).1.Ok?
    ensures var st' := SetMembership(st, g, u, member, until, admitted, now).0;
      var changed := MembershipChanges(st.dir, g, u, member, until);
      && RoleRevisions(st.dir, st'.dir, g, changed)
      && Leaves(st, st', (v: UserId, c: ClientId) =>
           !(v in {u} && changed && EndedBy(st.dir, g, c)) && ClientAccess(st'.dir, c, v, now))
  {
    var d := st.dir.(members := if member then st.dir.members[(g, u) := until] else st.dir.members - {(g, u)});
    WriteThenFollowUp(st, d, g, {u}, MembershipChanges(st.dir, g, u, member, until), now);
  }

  lemma DeletionSteps(st: Store, g: GroupId)
    ensures var us := MembersOf(st.dir, g);
      var st1 := if g in st.dir.policed then RevokeUsers(st, us) else st;
      var st3 := RoleChange(st1.(dir := WithoutGroup(st1.dir, g)), MappedApps(st.dir, g), us);
      var kept := MembershipFollowUp(st, g, us);
      st3.tokens == kept.tokens && st3.codes == kept.codes && st3.dir.apps == kept.dir.apps
  {
    var us := MembersOf(st.dir, g);
    var st1 := if g in st.dir.policed then RevokeUsers(st, us) else st;
    assert st1.dir == st.dir;
    assert ClientsOf(WithoutGroup(st.dir, g), MappedApps(st.dir, g)) == ClientsOf(st.dir, MappedApps(st.dir, g));
  }

  /** A deleted group does the same to all its members at once. */
  lemma DeletionEffect(st: Store, g: GroupId, admitted: bool, now: int)
    requires DeleteGroup(st, g, admitted, now).1.Ok?
    ensures var st' := DeleteGroup(st, g, admitted, now).0;
      && RoleRevisions(st.dir, st'.dir, g, exists u :: (g, u) in st.dir.members)
      && Leaves(st, st', (v: UserId, c: ClientId) =>
           !((g, v) in st.dir.members && EndedBy(st.dir, g, c)) && ClientAccess(st'.dir, c, v, now))
  {
    var us := MembersOf(st.dir, g);
    forall v ensures v in us <==> (g, v) in st.dir.members {
      if (g, v) in st.dir.members {
        assert (g, v).0 == g && (g, v).1 == v;
      }
    }
    assert us != {} <==> exists u :: (g, u) in st.dir.members by {
      if u :| u in us {
        assert (g, u) in st.dir.members;
      }
    }
    var st1 := if g in st.dir.policed then RevokeUsers(st, us) else st;
    var st3 := RoleChange(st1.(dir := WithoutGroup(st1.dir, g)), MappedApps(st.dir, g), us);
    DeletionSteps(st, g);
    FollowUpEnds(st, g, us);
    RevokeLostLeaves(st3, now);
    DeletionLeaves(st, st3, g, us, now);
  }

  lemma DeletionLeaves(st: Store, st3: Store, g: GroupId, us: set<UserId>, now: int)
    requires var kept := MembershipFollowUp(st, g, us);
      && st3.tokens == kept.tokens && st3.codes == kept.codes
      && Leaves(st, kept, (v: UserId, c: ClientId) => !(v in us && EndedBy(st.dir, g, c)))
    requires Leaves(st3, RevokeLost(st3, now), (v: UserId, c: ClientId) => ClientAccess(st3.dir, c, v, now))
    requires forall v :: v in us <==> (g, v) in st.dir.members
    ensures Leaves(st, RevokeLost(st3, now), (v: UserId, c: ClientId) =>
      !((g, v) in st.dir.members && EndedBy(st.dir, g, c)) && ClientAccess(st3.dir, c, v, now))
  {
    var spared := (v: UserId, c: ClientId) => !(v in us && EndedBy(st.dir, g, c));
    assert Leaves(st, st3, spared);
    LeavesTwice(st, st3, RevokeLost(st3, now), spared, (v: UserId, c: ClientId) => ClientAccess(st3.dir, c, v, now),
      (v: UserId, c: ClientId) => !((g, v) in st.dir.members && EndedBy(st.dir, g, c))
        && ClientAccess(st3.dir, c, v, now));
  }

  /** And so does a membership that has ended; which grants it ends is in LeaveSpares. */
  lemma LeaveRevisions(st: Store, g: GroupId, u: UserId)
    ensures RoleRevisions(st.dir, ExpireMember(st, (g, u)).dir, g, true)
  {
    var d1 := st.dir.(members := st.dir.members - {(g, u)});
    var st2 := RoleChange(st.(dir := d1), MappedApps(d1, g), {u});
    RoleChangeRevisions(d1, st.(dir := d1), g, {u});
    SameMappings(st.dir, d1, st2.dir, g, true);
    assert ExpireMember(st, (g, u)).dir == st2.dir;
  }

  /** Who holds a role: whoever it is given to, and the current members of the groups it is given to. */
  lemma WhoHoldsRole(d: Directory, r: RoleId, a: AppId, u: UserId, t: int)
    ensures r in RolesOf(d, a, u, t) <==>
      && r in d.roles && d.roles[r] == a
      && ((r, u) in d.roleUsers
          || exists g :: (r, g) in d.roleGroups && (g, u) in d.members
               && (d.members[(g, u)].None? || t < d.members[(g, u)].value))
  {
    if p :| p in d.roleGroups && p.0 == r && LiveMember(d, p.1, u, t) {
      assert (r, p.1) == p;
    }
    if g :| (r, g) in d.roleGroups && LiveMember(d, g, u, t) {
      assert (r, g).0 == r && (r, g).1 == g;
    }
  }

  // ---- no grant outlives the roles it stands for ----------------------------------------------------

  /** The rows that decide who holds which role. */
  predicate SameRoles(d: Directory, d': Directory) {
    d'.roles == d.roles && d'.roleUsers == d.roleUsers && d'.roleGroups == d.roleGroups && d'.members == d.members
  }

  lemma SameRolesHold(d: Directory, d': Directory, a: AppId, u: UserId, t: int)
    requires SameRoles(d, d')
    ensures RolesOf(d', a, u, t) == RolesOf(d, a, u, t)
  {
    forall r ensures HoldsRole(d', r, u, t) <==> HoldsRole(d, r, u, t) {
    }
  }

  /** The same for one user only. */
  lemma SameMemberHolds(d: Directory, d': Directory, a: AppId, u: UserId, t: int)
    requires d'.roles == d.roles && d'.roleUsers == d.roleUsers && d'.roleGroups == d.roleGroups
    requires forall h :: LiveMember(d', h, u, t) <==> LiveMember(d, h, u, t)
    ensures RolesOf(d', a, u, t) == RolesOf(d, a, u, t)
  {
    forall r ensures HoldsRole(d', r, u, t) <==> HoldsRole(d, r, u, t) {
    }
  }

  /** Only one group's memberships and mappings differ, and the user has no role of the app by that group. */
  lemma UnmappedRolesHold(d: Directory, d': Directory, g: GroupId, a: AppId, u: UserId, t: int)
    requires d'.roles == d.roles && d'.roleUsers == d.roleUsers
    requires !MapsRole(d, g, a) || (!LiveMember(d, g, u, t) && !LiveMember(d', g, u, t))
    requires forall r, h :: h != g ==> ((r, h) in d'.roleGroups <==> (r, h) in d.roleGroups)
    requires forall h :: h != g ==> (LiveMember(d', h, u, t) <==> LiveMember(d, h, u, t))
    requires d'.roleGroups <= d.roleGroups
    ensures RolesOf(d', a, u, t) == RolesOf(d, a, u, t)
  {
    forall r | r in d.roles && d.roles[r] == a ensures HoldsRole(d', r, u, t) <==> HoldsRole(d, r, u, t) {
      if p :| p in d.roleGroups && p.0 == r && LiveMember(d, p.1, u, t) {
        assert p == (r, p.1) && p.1 != g;
        assert p in d'.roleGroups && LiveMember(d', p.1, u, t);
      }
      if p :| p in d'.roleGroups && p.0 == r && LiveMember(d', p.1, u, t) {
        assert p == (r, p.1) && p in d.roleGroups && p.1 != g;
        assert LiveMember(d, p.1, u, t);
      }
    }
  }

  /** A commit that is no change of membership changes no role, at no instant. */
  lemma OtherCommitsKeepRoles(st: Store, c: Commit)
    requires !c.op.MemberOp? && !c.op.DeleteGroupOp? && !c.op.LeaveOp?
    ensures SameRoles(st.dir, Apply(st, c).0.dir)
  {
    match c.op
    case UserOp(u, admin, active, endsAt, revoke) => UserShape(st, u, admin, active, endsAt, revoke, c.now);
    case EndOp(u, asAdmin) => EndShape(st, u, asAdmin, c.now);
    case AssignOp(a, p, on, until) => AssignmentKeepsRoles(st, a, p, on, until, c.now);
    case PolicyOp(_, _, _, _) =>
    case ClientOp(_, _, _) =>
    case LapseOp(_, _) =>
    case SettleOp =>
    case IssueOp(_, _, _, _, _) =>
    case CodeOp(_, _, _, _) =>
    case SpendOp(_) =>
  }

  lemma AssignmentKeepsRoles(st: Store, a: AppId, p: Principal, on: bool, until: Option<int>, now: int)
    ensures SameRoles(st.dir, SetAssignment(st, a, p, on, until, now).0.dir)
  {
  }

  /** A token that is live afterwards, or a code that is still there, of the user at the client. */
  ghost predicate StillHas(st: Store, st': Store, u: UserId, c: ClientId) {
    || (exists j :: j in st.tokens && st.tokens[j].user == u && st.tokens[j].client == c && LiveToken(st', j))
    || (exists i :: i in st.codes && st.codes[i].user == u && st.codes[i].client == c && i in st'.codes)
  }

  lemma LeftMeansKept(st: Store, st': Store, keeps: (UserId, ClientId) -> bool, u: UserId, c: ClientId)
    requires Leaves(st, st', keeps) && StillHas(st, st', u, c)
    ensures keeps(u, c)
  {
  }

  lemma MembershipKeepsRoles(st: Store, g: GroupId, v: UserId, member: bool, until: Option<int>, admitted: bool,
      now: int,
      u: UserId, client: ClientId, a: AppId, t: int)
    requires StillHas(st, SetMembership(st, g, v, member, until, admitted, now).0, u, client)
      && AppOf(st.dir, client, a)
    ensures RolesOf(SetMembership(st, g, v, member, until, admitted, now).0.dir, a, u, t) == RolesOf(st.dir, a, u, t)
  {
    var (st', r) := SetMembership(st, g, v, member, until, admitted, now);
    if r.Ok? {
      var changed := MembershipChanges(st.dir, g, v, member, until);
      MembershipShape(st, g, v, member, until, admitted, now);
      forall h ensures h != g || u != v || !changed ==>
        (LiveMember(st'.dir, h, u, t) <==> LiveMember(st.dir, h, u, t)) {
      }
      if u != v || !changed {
        SameMemberHolds(st.dir, st'.dir, a, u, t);
      } else {
        MembershipEffect(st, g, v, member, until, admitted, now);
        LeftMeansKept(st, st', (w: UserId, c: ClientId) =>
          !(w in {v} && changed && EndedBy(st.dir, g, c)) && ClientAccess(st'.dir, c, w, now), u, client);
        assert !MapsRole(st.dir, g, a);
        UnmappedRolesHold(st.dir, st'.dir, g, a, u, t);
      }
    }
  }

  lemma DeletionKeepsRoles(st: Store, g: GroupId, admitted: bool, now: int, u: UserId, client: ClientId, a: AppId,
      t: int)
    requires StillHas(st, DeleteGroup(st, g, admitted, now).0, u, client) && AppOf(st.dir, client, a)
    ensures RolesOf(DeleteGroup(st, g, admitted, now).0.dir, a, u, t) == RolesOf(st.dir, a, u, t)
  {
    var (st', r) := DeleteGroup(st, g, admitted, now);
    if r.Ok? {
      DeletionShape(st, g, admitted, now);
      forall h ensures LiveMember(st'.dir, h, u, t) <==> h != g && LiveMember(st.dir, h, u, t) {
        assert (h, u).0 == h;
      }
      forall rr: RoleId, h: GroupId | h != g ensures (rr, h) in st'.dir.roleGroups <==> (rr, h) in st.dir.roleGroups {
        assert (rr, h).1 == h;
      }
      DeletionEffect(st, g, admitted, now);
      LeftMeansKept(st, st', (v: UserId, c: ClientId) =>
        !((g, v) in st.dir.members && EndedBy(st.dir, g, c)) && ClientAccess(st'.dir, c, v, now), u, client);
      assert !LiveMember(st.dir, g, u, t) || !MapsRole(st.dir, g, a);
      UnmappedRolesHold(st.dir, st'.dir, g, a, u, t);
    }
  }

  lemma LeaveKeepsRoles(st: Store, g: GroupId, v: UserId, u: UserId, client: ClientId, a: AppId, t: int)
    requires StillHas(st, ExpireMember(st, (g, v)), u, client) && AppOf(st.dir, client, a)
    ensures RolesOf(ExpireMember(st, (g, v)).dir, a, u, t) == RolesOf(st.dir, a, u, t)
  {
    var st' := ExpireMember(st, (g, v));
    ExpireMemberEffect(st, (g, v));
    forall h ensures h != g || u != v ==> (LiveMember(st'.dir, h, u, t) <==> LiveMember(st.dir, h, u, t)) {
    }
    if u != v {
      SameMemberHolds(st.dir, st'.dir, a, u, t);
    } else {
      LeaveSpares(st, g, v);
      assert SparedByLeave(st, g, client);
      assert !MapsRole(st.dir, g, a);
      UnmappedRolesHold(st.dir, st'.dir, g, a, u, t);
    }
  }

  /**
   Whatever commits: a token or code that is still good stands for exactly the roles in the client's app
   that it stood for, at every instant.
   */
  lemma GrantsKeepTheirRoles(st: Store, c: Commit, u: UserId, client: ClientId, a: AppId, t: int)
    requires StillHas(st, Apply(st, c).0, u, client) && AppOf(st.dir, client, a)
    ensures RolesOf(Apply(st, c).0.dir, a, u, t) == RolesOf(st.dir, a, u, t)
  {
    match c.op
    case MemberOp(g, v, member, until, admitted) =>
      MembershipKeepsRoles(st, g, v, member, until, admitted, c.now, u, client, a, t);
    case DeleteGroupOp(g, admitted) => DeletionKeepsRoles(st, g, admitted, c.now, u, client, a, t);
    case LeaveOp(g, v) => LeaveKeepsRoles(st, g, v, u, client, a, t);
    case _ =>
      OtherCommitsKeepRoles(st, c);
      SameRolesHold(st.dir, Apply(st, c).0.dir, a, u, t);
  }

  /** Over whole runs: a token that is live at the end stands for the roles its user still holds there. */
  lemma {:induction false} LiveTokenKeepsItsRoles(st: Store, cs: seq<Commit>, j: Jti, a: AppId, t: int)
    requires CodesKnown(st) && j in st.tokens && LiveToken(Run(st, cs), j) && AppOf(st.dir, st.tokens[j].client, a)
    ensures RolesOf(Run(st, cs).dir, a, st.tokens[j].user, t) == RolesOf(st.dir, a, st.tokens[j].user, t)
    decreases |cs|
  {
    if cs != [] {
      var st1 := Apply(st, cs[0]).0;
      CommitRevivesNothing(st, cs[0]);
      RunRevivesNothing(st1, cs[1..]);
      assert LiveToken(st1, j);
      GrantsKeepTheirRoles(st, cs[0], st.tokens[j].user, st.tokens[j].client, a, t);
      CommitFollows(st, cs[0], a);
      LiveTokenKeepsItsRoles(st1, cs[1..], j, a, t);
    }
  }

  /** The same of a code that still exists. */
  lemma {:induction false} CodeKeepsItsRoles(st: Store, cs: seq<Commit>, i: CodeId, a: AppId, t: int)
    requires CodesKnown(st) && i in st.codes && i in Run(st, cs).codes && AppOf(st.dir, st.codes[i].client, a)
    ensures RolesOf(Run(st, cs).dir, a, st.codes[i].user, t) == RolesOf(st.dir, a, st.codes[i].user, t)
    decreases |cs|
  {
    if cs != [] {
      var st1 := Apply(st, cs[0]).0;
      CommitRevivesNothing(st, cs[0]);
      RunRevivesNothing(st1, cs[1..]);
      assert i in st1.codeIds && i in st1.codes;
      GrantsKeepTheirRoles(st, cs[0], st.codes[i].user, st.codes[i].client, a, t);
      CommitFollows(st, cs[0], a);
      CodeKeepsItsRoles(st1, cs[1..], i, a, t);
    }
  }
}
