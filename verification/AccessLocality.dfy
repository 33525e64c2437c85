/**
 What a commit reaches and what it leaves alone, and what happens when other commits come between the
 items of an expiry pass.
 */
module AccessLocality {
  import opened Optional
  import opened Directory
  import opened Grants
  import opened Expiry
  import opened AccessRuns

  // ---- what a commit writes -------------------------------------------------------------------------

  /** A direct grant holds exactly until its end, and no other direct or group grant changes. */
  lemma AssignmentTakesEffect(st: Store, a: AppId, u: UserId, on: bool, until: Option<int>, now: int, b: AppId,
      v: UserId, t: int)
    requires SetAssignment(st, a, AUser(u), on, until, now).1.Ok?
    ensures var d' := SetAssignment(st, a, AUser(u), on, until, now).0.dir;
      && (DirectGrant(d', b, v, t) <==> if b == a && v == u then on && Live(until, t) else DirectGrant(st.dir, b, v, t))
      && (GroupGrant(d', b, v, t) <==> GroupGrant(st.dir, b, v, t))
  {
    var d' := SetAssignment(st, a, AUser(u), on, until, now).0.dir;
    forall g ensures LiveMember(d', g, v, t) <==> LiveMember(st.dir, g, v, t) {
    }
  }

  /** A granted group lets in exactly its live members, and a group taken off no longer does. */
  lemma GroupAssignmentTakesEffect(st: Store, a: AppId, g: GroupId, on: bool, now: int, b: AppId, v: UserId, t: int)
    requires SetAssignment(st, a, AGroup(g), on, None, now).1.Ok?
    ensures var d' := SetAssignment(st, a, AGroup(g), on, None, now).0.dir;
      && (DirectGrant(d', b, v, t) <==> DirectGrant(st.dir, b, v, t))
      && (GroupGrant(d', b, v, t) <==>
            || (exists p :: p in st.dir.granted && p.0 == b && p != (a, g) && LiveMember(st.dir, p.1, v, t))
            || (b == a && on && LiveMember(st.dir, g, v, t)))
  {
    var d' := SetAssignment(st, a, AGroup(g), on, None, now).0.dir;
    forall h ensures LiveMember(d', h, v, t) <==> LiveMember(st.dir, h, v, t) {
    }
    if b == a && on && LiveMember(st.dir, g, v, t) {
      assert (a, g) in d'.granted && (a, g).0 == b && LiveMember(d', (a, g).1, v, t);
    }
    if p :| p in st.dir.granted && p.0 == b && p != (a, g) && LiveMember(st.dir, p.1, v, t) {
      assert p in d'.granted && LiveMember(d', p.1, v, t);
    }
  }

  lemma MembershipShape(st: Store, g: GroupId, u: UserId, member: bool, until: Option<int>, admitted: bool, now: int)
    requires SetMembership(st, g, u, member, until, admitted, now).1.Ok?
    ensures var d, d' := st.dir, SetMembership(st, g, u, member, until, admitted, now).0.dir;
      && SameApps(d.apps, d'.apps)
      && d' == d.(members := if member then d.members[(g, u) := until] else d.members - {(g, u)}, apps := d'.apps)
  {
    var changed := if member then (g, u) !in st.dir.members || st.dir.members[(g, u)] != until
      else (g, u) in st.dir.members;
    var st1 := st.(dir := st.dir.(members := if member then st.dir.members[(g, u) := until]
      else st.dir.members - {(g, u)}));
    var st2 := if changed && g in st.dir.policed then RevokeUsers(st1, {u}) else st1;
    var st3 := if changed then RoleChange(st2, MappedApps(st2.dir, g), {u}) else st2;
    RoleChangeEffect(st2, MappedApps(st2.dir, g), {u});
    assert SetMembership(st, g, u, member, until, admitted, now).0.dir == st3.dir;
  }

  /** A membership holds exactly until its end, and no other membership changes. */
  lemma MembershipTakesEffect(st: Store, g: GroupId, u: UserId, member: bool, until: Option<int>, admitted: bool,
      now: int, h: GroupId, v: UserId, t: int)
    requires SetMembership(st, g, u, member, until, admitted, now).1.Ok?
    ensures var d' := SetMembership(st, g, u, member, until, admitted, now).0.dir;
      LiveMember(d', h, v, t) <==> if h == g && v == u then member && Live(until, t) else LiveMember(st.dir, h, v, t)
  {
    MembershipShape(st, g, u, member, until, admitted, now);
  }

  lemma DeletionShape(st: Store, g: GroupId, admitted: bool, now: int)
    requires DeleteGroup(st, g, admitted, now).1.Ok?
    ensures var d, d' := WithoutGroup(st.dir, g), DeleteGroup(st, g, admitted, now).0.dir;
      SameApps(d.apps, d'.apps) && d' == d.(apps := d'.apps)
  {
    var us := MembersOf(st.dir, g);
    var st1 := if g in st.dir.policed then RevokeUsers(st, us) else st;
    var st2 := st1.(dir := WithoutGroup(st1.dir, g));
    RoleChangeEffect(st2, MappedApps(st.dir, g), us);
    assert DeleteGroup(st, g, admitted, now).0.dir == RoleChange(st2, MappedApps(st.dir, g), us).dir;
  }

  lemma WithoutGroupGrants(d: Directory, d': Directory, g: GroupId, a: AppId, v: UserId, t: int)
    requires d'.members == WithoutGroup(d, g).members && d'.granted == WithoutGroup(d, g).granted
    ensures !LiveMember(d', g, v, t)
    ensures GroupGrant(d', a, v, t) <==> exists p :: p in d.granted && p.0 == a && p.1 != g && LiveMember(d, p.1, v, t)
  {
    forall h ensures LiveMember(d', h, v, t) <==> h != g && LiveMember(d, h, v, t) {
      assert (h, v).0 == h;
    }
    if p :| p in d.granted && p.0 == a && p.1 != g && LiveMember(d, p.1, v, t) {
      assert p in d'.granted && LiveMember(d', p.1, v, t);
    }
  }

  /** A deleted group grants nothing to anybody, and the other groups grant what they did. */
  lemma GroupDeletionTakesEffect(st: Store, g: GroupId, admitted: bool, now: int, a: AppId, v: UserId, t: int)
    requires DeleteGroup(st, g, admitted, now).1.Ok?
    ensures var d' := DeleteGroup(st, g, admitted, now).0.dir;
      && !LiveMember(d', g, v, t)
      && (DirectGrant(d', a, v, t) <==> DirectGrant(st.dir, a, v, t))
      && (GroupGrant(d', a, v, t) <==>
         exists p :: p in st.dir.granted && p.0 == a && p.1 != g && LiveMember(st.dir, p.1, v, t))
  {
    DeletionShape(st, g, admitted, now);
    WithoutGroupGrants(st.dir, DeleteGroup(st, g, admitted, now).0.dir, g, a, v, t);
  }

  // ---- whom it can reach ----------------------------------------------------------------------------

  /** The commit may change whether the app lets the user in at the instant. */
  predicate Touches(d: Directory, op: Op, a: AppId, u: UserId, t: int) {
    match op
    case PolicyOp(b, _, _, _) => a == b
    case AssignOp(b, AUser(v), _, _) => a == b && u == v
    case AssignOp(b, AGroup(g), _, _) => a == b && LiveMember(d, g, u, t)
    case MemberOp(g, v, _, _, _) => u == v && (a, g) in d.granted
    case DeleteGroupOp(g, _) => (a, g) in d.granted && LiveMember(d, g, u, t)
    case UserOp(v, _, _, _, _) => u == v
    case ClientOp(c, _, _) => AppOf(d, c, a)
    case EndOp(v, _) => u == v
    case LeaveOp(g, v) => u == v && (a, g) in d.granted && LiveMember(d, g, u, t)
    case LapseOp(b, v) => a == b && u == v && DirectGrant(d, a, u, t)
    case _ => false
  }

  /** Same user, same policy and client, same grant: same verdict. */
  lemma SameVerdict(d: Directory, d': Directory, a: AppId, u: UserId, t: int)
    requires a in d.apps <==> a in d'.apps
    requires a in d.apps ==>
      d'.apps[a].mode == d.apps[a].mode && d'.apps[a].enabled == d.apps[a].enabled
        && ClientOn(d', d'.apps[a]) == ClientOn(d, d.apps[a])
    requires (u in d'.users <==> u in d.users) && Active(d', u, t) == Active(d, u, t)
    requires HasGrant(d', a, u, t) == HasGrant(d, a, u, t)
    ensures Access(d', a, u, t) <==> Access(d, a, u, t)
  {
  }

  /** Users, clients and the policies of the apps are as they were. */
  predicate SameFrame(d: Directory, d': Directory) {
    && d'.users == d.users && d'.clients == d.clients && d'.apps.Keys == d.apps.Keys
    && forall a :: a in d.apps ==>
       d'.apps[a].mode == d.apps[a].mode && d'.apps[a].enabled == d.apps[a].enabled
         && d'.apps[a].client == d.apps[a].client
  }

  lemma FrameVerdict(d: Directory, d': Directory, a: AppId, u: UserId, t: int)
    requires SameFrame(d, d') && HasGrant(d', a, u, t) == HasGrant(d, a, u, t)
    ensures Access(d', a, u, t) <==> Access(d, a, u, t)
  {
    SameVerdict(d, d', a, u, t);
  }

  lemma AssignmentFrame(st: Store, a: AppId, p: Principal, on: bool, until: Option<int>, now: int)
    ensures SameFrame(st.dir, SetAssignment(st, a, p, on, until, now).0.dir)
  {
  }

  lemma UntouchedByAssignment(st: Store, b: AppId, p: Principal, on: bool, until: Option<int>, now: int, a: AppId,
      u: UserId, t: int)
    requires !Touches(st.dir, AssignOp(b, p, on, until), a, u, t)
    ensures Access(SetAssignment(st, b, p, on, until, now).0.dir, a, u, t) <==> Access(st.dir, a, u, t)
  {
    var (st', r) := SetAssignment(st, b, p, on, until, now);
    if r.Ok? {
      AssignmentFrame(st, b, p, on, until, now);
      match p
      case AUser(v) => AssignmentTakesEffect(st, b, v, on, until, now, a, u, t);
      case AGroup(g) => GroupAssignmentTakesEffect(st, b, g, on, now, a, u, t);
      FrameVerdict(st.dir, st'.dir, a, u, t);
    }
  }

  lemma UntouchedByMembership(st: Store, g: GroupId, v: UserId, member: bool, until: Option<int>, admitted: bool,
      now: int, a: AppId, u: UserId, t: int)
    requires !(u == v && (a, g) in st.dir.granted)
    ensures Access(SetMembership(st, g, v, member, until, admitted, now).0.dir, a, u, t) <==> Access(st.dir, a, u, t)
  {
    var (st', r) := SetMembership(st, g, v, member, until, admitted, now);
    if r.Ok? {
      MembershipShape(st, g, v, member, until, admitted, now);
      forall h | (a, h) in st.dir.granted ensures LiveMember(st'.dir, h, u, t) <==> LiveMember(st.dir, h, u, t) {
        MembershipTakesEffect(st, g, v, member, until, admitted, now, h, u, t);
      }
      SameGroupGrants(st.dir, st'.dir, a, u, t);
      FrameVerdict(st.dir, st'.dir, a, u, t);
    }
  }

  lemma SameGroupGrants(d: Directory, d': Directory, a: AppId, u: UserId, t: int)
    requires d'.granted == d.granted && forall h :: (a, h) in d.granted ==>
      (LiveMember(d', h, u, t) <==> LiveMember(d, h, u, t))
    ensures GroupGrant(d', a, u, t) == GroupGrant(d, a, u, t)
  {
    if p :| p in d.granted && p.0 == a && LiveMember(d, p.1, u, t) {
      assert (a, p.1) == p;
    }
    if p :| p in d.granted && p.0 == a && LiveMember(d', p.1, u, t) {
      assert (a, p.1) == p;
    }
  }

  lemma UntouchedByDeletion(st: Store, g: GroupId, admitted: bool, now: int, a: AppId, u: UserId, t: int)
    requires !((a, g) in st.dir.granted && LiveMember(st.dir, g, u, t))
    ensures Access(DeleteGroup(st, g, admitted, now).0.dir, a, u, t) <==> Access(st.dir, a, u, t)
  {
    var (st', r) := DeleteGroup(st, g, admitted, now);
    if r.Ok? {
      DeletionShape(st, g, admitted, now);
      GroupDeletionTakesEffect(st, g, admitted, now, a, u, t);
      if p :| p in st.dir.granted && p.0 == a && LiveMember(st.dir, p.1, u, t) {
        assert p == (a, p.1) && p.1 != g;
      }
      FrameVerdict(st.dir, st'.dir, a, u, t);
    }
  }

  lemma OtherAccountsKeepAccess(d: Directory, v: UserId, row: User, a: AppId, u: UserId, t: int)
    requires u != v
    ensures Access(d.(users := d.users[v := row]), a, u, t) <==> Access(d, a, u, t)
  {
    var d' := d.(users := d.users[v := row]);
    assert GroupGrant(d', a, u, t) == GroupGrant(d, a, u, t);
    SameVerdict(d, d', a, u, t);
  }

  lemma UserShape(st: Store, v: UserId, admin: bool, active: bool, endsAt: Option<int>, revoke: bool, now: int)
    ensures var d' := EditUser(st, v, admin, active, endsAt, revoke, now).0.dir;
      d' == st.dir || d' == st.dir.(users := st.dir.users[v := User(admin, active, endsAt)])
  {
  }

  lemma EndShape(st: Store, v: UserId, asAdmin: bool, now: int)
    ensures var d' := EndItem(st, v, asAdmin, now).dir;
      || d' == st.dir
      || (v in st.dir.users && exists row: User ::
            row.admin == st.dir.users[v].admin && d' == st.dir.(users := st.dir.users[v := row]))
  {
    if v in st.dir.users {
      var row := st.dir.users[v];
      if asAdmin && ActiveAdmins(st.dir, now) - {v} == {} {
        assert EndItem(st, v, asAdmin, now).dir == st.dir.(users := st.dir.users[v := row.(endsAt := None)]);
      } else {
        assert EndItem(st, v, asAdmin, now).dir == st.dir.(users := st.dir.users[v := row.(active := false)]);
      }
    }
  }

  lemma UntouchedByUser(st: Store, v: UserId, admin: bool, active: bool, endsAt: Option<int>, revoke: bool, now: int,
      a: AppId, u: UserId, t: int)
    requires u != v
    ensures Access(EditUser(st, v, admin, active, endsAt, revoke, now).0.dir, a, u, t) <==> Access(st.dir, a, u, t)
  {
    UserShape(st, v, admin, active, endsAt, revoke, now);
    var d' := EditUser(st, v, admin, active, endsAt, revoke, now).0.dir;
    if d' != st.dir {
      OtherAccountsKeepAccess(st.dir, v, User(admin, active, endsAt), a, u, t);
    }
  }

  lemma UntouchedByEnd(st: Store, v: UserId, asAdmin: bool, now: int, a: AppId, u: UserId, t: int)
    requires u != v
    ensures Access(EndItem(st, v, asAdmin, now).dir, a, u, t) <==> Access(st.dir, a, u, t)
  {
    EndShape(st, v, asAdmin, now);
    var d' := EndItem(st, v, asAdmin, now).dir;
    if d' != st.dir {
      var row :| d' == st.dir.(users := st.dir.users[v := row]);
      OtherAccountsKeepAccess(st.dir, v, row, a, u, t);
    }
  }

  lemma UntouchedByClient(st: Store, client: ClientId, enabled: bool, revoke: bool, a: AppId, u: UserId, t: int)
    requires !AppOf(st.dir, client, a)
    ensures Access(EditClient(st, client, enabled, revoke).0.dir, a, u, t) <==> Access(st.dir, a, u, t)
  {
    var d' := EditClient(st, client, enabled, revoke).0.dir;
    assert GroupGrant(d', a, u, t) == GroupGrant(st.dir, a, u, t);
    SameVerdict(st.dir, d', a, u, t);
  }

  lemma UntouchedByLapse(st: Store, b: AppId, v: UserId, a: AppId, u: UserId, t: int)
    requires !(a == b && u == v && DirectGrant(st.dir, a, u, t))
    ensures Access(ExpireGrant(st, (b, v)).dir, a, u, t) <==> Access(st.dir, a, u, t)
  {
    LapsedAccess(st, b, v, a, u, t);
  }

  lemma UntouchedByLeave(st: Store, g: GroupId, v: UserId, a: AppId, u: UserId, t: int)
    requires !(u == v && (a, g) in st.dir.granted && LiveMember(st.dir, g, u, t))
    ensures Access(ExpireMember(st, (g, v)).dir, a, u, t) <==> Access(st.dir, a, u, t)
  {
    LeftAccess(st, g, v, a, u, t);
  }

  /** A commit changes nobody's access but that of those it touches, at no instant, past or to come. */
  lemma UntouchedByCommit(st: Store, c: Commit, a: AppId, u: UserId, t: int)
    requires !Touches(st.dir, c.op, a, u, t)
    ensures Access(Apply(st, c).0.dir, a, u, t) <==> Access(st.dir, a, u, t)
  {
    match c.op
    case PolicyOp(b, mode, enabled, revision) => UntouchedByPolicy(st, b, mode, enabled, revision, c.now, a, u, t);
    case AssignOp(b, p, on, until) => UntouchedByAssignment(st, b, p, on, until, c.now, a, u, t);
    case MemberOp(g, v, member, until, admitted) => UntouchedByMembership(st, g, v, member, until, admitted, c.now,
      a, u, t);
    case DeleteGroupOp(g, admitted) => UntouchedByDeletion(st, g, admitted, c.now, a, u, t);
    case UserOp(v, admin, active, endsAt, revoke) => UntouchedByUser(st, v, admin, active, endsAt, revoke, c.now,
      a, u, t);
    case EndOp(v, asAdmin) => UntouchedByEnd(st, v, asAdmin, c.now, a, u, t);
    case ClientOp(client, enabled, revoke) => UntouchedByClient(st, client, enabled, revoke, a, u, t);
    case LapseOp(b, v) => UntouchedByLapse(st, b, v, a, u, t);
    case LeaveOp(g, v) => UntouchedByLeave(st, g, v, a, u, t);
    case SettleOp =>
    case IssueOp(_, _, _, _, _) =>
    case CodeOp(_, _, _, _) =>
    case SpendOp(_) =>
  }

  lemma UntouchedByPolicy(st: Store, b: AppId, mode: Mode, enabled: bool, revision: nat, now: int, a: AppId, u: UserId,
      t: int)
    requires a != b
    ensures Access(SetAppPolicy(st, b, mode, enabled, revision, now).0.dir, a, u, t) <==> Access(st.dir, a, u, t)
  {
    var d' := SetAppPolicy(st, b, mode, enabled, revision, now).0.dir;
    assert GroupGrant(d', a, u, t) == GroupGrant(st.dir, a, u, t);
    SameVerdict(st.dir, d', a, u, t);
  }

  /** No commit of the run touches the pair at the instant. */
  predicate NeverTouched(st: Store, cs: seq<Commit>, a: AppId, u: UserId, t: int)
    decreases |cs|
  {
    cs == [] || (!Touches(st.dir, cs[0].op, a, u, t) && NeverTouched(Apply(st, cs[0]).0, cs[1..], a, u, t))
  }

  /** Over whole runs: who is never touched has exactly the access they had. */
  lemma {:induction false} UntouchedKeepAccess(st: Store, cs: seq<Commit>, a: AppId, u: UserId, t: int)
    requires NeverTouched(st, cs, a, u, t)
    ensures Access(Run(st, cs).dir, a, u, t) <==> Access(st.dir, a, u, t)
    decreases |cs|
  {
    if cs != [] {
      UntouchedByCommit(st, cs[0], a, u, t);
      UntouchedKeepAccess(Apply(st, cs[0]).0, cs[1..], a, u, t);
    }
  }

  // ---- a pass, item by item -------------------------------------------------------------------------

  function EndCommits(d: Directory, users: seq<UserId>, now: int): seq<Commit> {
    if users == [] then []
    else [Commit(EndOp(users[0], users[0] in d.users && d.users[users[0]].admin), now)] + EndCommits(d, users[1..], now)
  }

  function LeaveCommits(members: seq<(GroupId, UserId)>, now: int): seq<Commit> {
    if members == [] then [] else [Commit(LeaveOp(members[0].0, members[0].1), now)] + LeaveCommits(members[1..], now)
  }

  function LapseCommits(grants: seq<(AppId, UserId)>, now: int): seq<Commit> {
    if grants == [] then [] else [Commit(LapseOp(grants[0].0, grants[0].1), now)] + LapseCommits(grants[1..], now)
  }

  /** The commits of a pass that found these rows. */
  function PassCommits(d: Directory, users: seq<UserId>, members: seq<(GroupId, UserId)>, grants: seq<(AppId, UserId)>,
      now: int): seq<Commit> {
    EndCommits(d, users, now) + LeaveCommits(members, now) + LapseCommits(grants, now) + [Commit(SettleOp, now)]
  }

  lemma {:induction false} RunConcat(st: Store, a: seq<Commit>, b: seq<Commit>)
    ensures Run(st, a + b) == Run(Run(st, a), b)
    decreases |a|
  {
    if a == [] {
      assert a + b == b;
    } else {
      assert (a + b)[0] == a[0] && (a + b)[1..] == a[1..] + b;
      RunConcat(Apply(st, a[0]).0, a[1..], b);
    }
  }

  predicate SameRoles(d: Directory, d': Directory, users: seq<UserId>) {
    forall u :: u in users ==>
      (u in d'.users <==> u in d.users) && (u in d.users ==> d'.users[u].admin == d.users[u].admin)
  }

  lemma EndKeepsRoles(st: Store, u: UserId, now: int)
    ensures var d, d' := st.dir, EndAccount(st, u, now).dir;
      d'.users.Keys == d.users.Keys && forall v :: v in d.users ==> d'.users[v].admin == d.users[v].admin
  {
    if u in st.dir.users {
      EndShape(st, u, st.dir.users[u].admin, now);
    }
  }

  lemma FirstCommit(st: Store, c: Commit, cs: seq<Commit>)
    ensures Run(st, [c] + cs) == Run(Apply(st, c).0, cs)
  {
    assert ([c] + cs)[1..] == cs;
  }

  lemma {:induction false} EndsAreARun(st: Store, d: Directory, users: seq<UserId>, now: int)
    requires SameRoles(d, st.dir, users)
    ensures Run(st, EndCommits(d, users, now)) == EndAccounts(st, users, now)
    decreases |users|
  {
    if users != [] {
      var u := users[0];
      var c := Commit(EndOp(u, u in d.users && d.users[u].admin), now);
      FirstCommit(st, c, EndCommits(d, users[1..], now));
      assert u in users && forall v :: v in users[1..] ==> v in users;
      EndKeepsRoles(st, u, now);
      assert Apply(st, c).0 == EndAccount(st, u, now);
      EndsAreARun(EndAccount(st, u, now), d, users[1..], now);
    }
  }

  lemma {:induction false} LeavesAreARun(st: Store, members: seq<(GroupId, UserId)>, now: int)
    ensures Run(st, LeaveCommits(members, now)) == ExpireMembers(st, members)
    decreases |members|
  {
    if members != [] {
      FirstCommit(st, Commit(LeaveOp(members[0].0, members[0].1), now), LeaveCommits(members[1..], now));
      assert (members[0].0, members[0].1) == members[0];
      LeavesAreARun(ExpireMember(st, members[0]), members[1..], now);
    }
  }

  lemma {:induction false} LapsesAreARun(st: Store, grants: seq<(AppId, UserId)>, now: int)
    ensures Run(st, LapseCommits(grants, now)) == ExpireGrants(st, grants)
    decreases |grants|
  {
    if grants != [] {
      FirstCommit(st, Commit(LapseOp(grants[0].0, grants[0].1), now), LapseCommits(grants[1..], now));
      assert (grants[0].0, grants[0].1) == grants[0];
      LapsesAreARun(ExpireGrant(st, grants[0]), grants[1..], now);
    }
  }

  lemma RunInFour(st: Store, a: seq<Commit>, b: seq<Commit>, c: seq<Commit>, e: Commit)
    ensures Run(st, a + b + c + [e]) == Apply(Run(Run(Run(st, a), b), c), e).0
  {
    RunConcat(st, a + b + c, [e]);
    RunConcat(st, a + b, c);
    RunConcat(st, a, b);
    var st3 := Run(Run(Run(st, a), b), c);
    FirstCommit(st3, e, []);
    assert [e] + [] == [e];
  }

  lemma SettleIsFollowUp(st: Store, now: int)
    ensures Apply(st, Commit(SettleOp, now)).0 == FollowUp(st, now)
  {
  }

  /** A pass that nothing interrupts is the run of its items and the follow-up. */
  lemma PassIsARun(st: Store, users: seq<UserId>, members: seq<(GroupId, UserId)>, grants: seq<(AppId, UserId)>,
      now: int)
    ensures Run(st, PassCommits(st.dir, users, members, grants, now)) == Pass(st, users, members, grants, now)
  {
    RunInFour(st, EndCommits(st.dir, users, now), LeaveCommits(members, now), LapseCommits(grants, now),
      Commit(SettleOp, now));
    EndsAreARun(st, st.dir, users, now);
    var st1 := EndAccounts(st, users, now);
    var st2 := ExpireMembers(st1, members);
    var st3 := ExpireGrants(st2, grants);
    LeavesAreARun(st1, members, now);
    LapsesAreARun(st2, grants, now);
    SettleIsFollowUp(st3, now);
    assert Pass(st, users, members, grants, now) == FollowUp(st3, now);
  }

  // ---- a pass spares those it has nothing for -------------------------------------------------------

  lemma SameGrantsTwice(a: Store, b: Store, c: Store, user: UserId)
    requires SameGrants(a, b, user) && SameGrants(b, c, user)
    ensures SameGrants(a, c, user)
  {
  }

  lemma {:induction false} EndsSpareOthers(st: Store, users: seq<UserId>, now: int, user: UserId)
    requires user !in users
    ensures SameGrants(st, EndAccounts(st, users, now), user)
    decreases |users|
  {
    if users != [] {
      var st1 := EndAccount(st, users[0], now);
      EndsSpareOthers(st1, users[1..], now, user);
      SameGrantsTwice(st, st1, EndAccounts(st1, users[1..], now), user);
    }
  }

  lemma LeaveSparesOthers(st: Store, p: (GroupId, UserId), user: UserId)
    requires p.1 != user
    ensures SameGrants(st, ExpireMember(st, p), user)
  {
    var st1 := st.(dir := st.dir.(members := st.dir.members - {p}));
    var apps := MappedApps(st1.dir, p.0);
    OthersKeepGrants(st1, {p.1}, apps, user);
    OthersKeepGrants(RoleChange(st1, apps, {p.1}), {p.1}, apps, user);
  }

  lemma {:induction false} LeavesSpareOthers(st: Store, members: seq<(GroupId, UserId)>, user: UserId)
    requires forall i :: 0 <= i < |members| ==> members[i].1 != user
    ensures SameGrants(st, ExpireMembers(st, members), user)
    decreases |members|
  {
    if members != [] {
      var st1 := ExpireMember(st, members[0]);
      LeaveSparesOthers(st, members[0], user);
      LeavesSpareOthers(st1, members[1..], user);
      SameGrantsTwice(st, st1, ExpireMembers(st1, members[1..]), user);
    }
  }

  lemma {:induction false} LapsesSpareAll(st: Store, grants: seq<(AppId, UserId)>, user: UserId)
    ensures SameGrants(st, ExpireGrants(st, grants), user)
    decreases |grants|
  {
    if grants != [] {
      LapsesSpareAll(ExpireGrant(st, grants[0]), grants[1..], user);
    }
  }

  /**
   The background pass ends nothing else: a grant of someone whose account and memberships it did not
   find due survives if and only if it was live and has access.
   */
  lemma PassEndsOnlyLost(st: Store, users: seq<UserId>, members: seq<(GroupId, UserId)>, grants: seq<(AppId, UserId)>,
      now: int, user: UserId)
    requires user !in users && forall i :: 0 <= i < |members| ==> members[i].1 != user
    ensures KeptExactly(st, Pass(st, users, members, grants, now), user, now)
  {
    var st1 := EndAccounts(st, users, now);
    var st2 := ExpireMembers(st1, members);
    var st3 := ExpireGrants(st2, grants);
    EndsSpareOthers(st, users, now, user);
    LeavesSpareOthers(st1, members, user);
    LapsesSpareAll(st2, grants, user);
    SameGrantsTwice(st, st1, st2, user);
    SameGrantsTwice(st, st2, st3, user);
    RevokeLostExactly(st, st3.(requests := FollowUp(st3, now).requests), user, now);
  }

  // ---- commits that come between --------------------------------------------------------------------

  /** A membership extended after the pass has found it due is removed all the same. */
  lemma ExtensionIsLost(st: Store, g: GroupId, u: UserId, until: Option<int>, admitted: bool, now: int, t: int)
    requires SetMembership(st, g, u, true, until, admitted, now).1.Ok? && Live(until, t)
    ensures var extended := SetMembership(st, g, u, true, until, admitted, now).0;
      LiveMember(extended.dir, g, u, t) && !LiveMember(ExpireMember(extended, (g, u)).dir, g, u, t)
  {
    var extended := SetMembership(st, g, u, true, until, admitted, now).0;
    MembershipTakesEffect(st, g, u, true, until, admitted, now, g, u, t);
    ExpireMemberEffect(extended, (g, u));
  }

  /** So is a direct grant. */
  lemma GrantExtensionIsLost(st: Store, a: AppId, u: UserId, until: Option<int>, now: int, t: int)
    requires SetAssignment(st, a, AUser(u), true, until, now).1.Ok? && Live(until, t)
    ensures var extended := SetAssignment(st, a, AUser(u), true, until, now).0;
      DirectGrant(extended.dir, a, u, t) && !DirectGrant(ExpireGrant(extended, (a, u)).dir, a, u, t)
  {
    AssignmentTakesEffect(st, a, u, true, until, now, a, u, t);
  }

  /** And an account, unless it is kept as the last administrator's. */
  lemma AccountExtensionIsLost(st: Store, u: UserId, admin: bool, until: Option<int>, asAdmin: bool, now: int, t: int)
    requires EditUser(st, u, admin, true, until, false, now).1.Ok? && Live(until, t)
    ensures var extended := EditUser(st, u, admin, true, until, false, now).0;
      && Active(extended.dir, u, t)
      && (Active(EndItem(extended, u, asAdmin, now).dir, u, t) <==>
            asAdmin && ActiveAdmins(extended.dir, now) - {u} == {})
  {
    var extended := EditUser(st, u, admin, true, until, false, now).0;
    assert extended.dir.users[u] == User(admin, true, until);
  }
}
