/**
 Access over whole runs: every transaction that edits access, every item of a pass over expired rows
 and its follow-up, and the issuing of tokens and codes, in any order and at any instants.
 */
module AccessRuns {
  import opened Optional
  import opened Directory
  import opened Grants
  import opened Expiry

  datatype Op =
    | PolicyOp(app: AppId, mode: Mode, enabled: bool, revision: nat)
    | AssignOp(app: AppId, principal: Principal, on: bool, until: Option<int>)
    | MemberOp(group: GroupId, user: UserId, member: bool, until: Option<int>, admitted: bool)
    | DeleteGroupOp(group: GroupId, admitted: bool)
    | EndOp(user: UserId, asAdmin: bool)
    | LeaveOp(group: GroupId, user: UserId)
    | LapseOp(app: AppId, user: UserId)
    | SettleOp
    | UserOp(user: UserId, admin: bool, active: bool, endsAt: Option<int>, revoke: bool)
    | ClientOp(client: ClientId, enabled: bool, revoke: bool)
    | IssueOp(jti: Jti, user: UserId, client: ClientId, expiresAt: int, checks: bool)
    | CodeOp(code: CodeId, user: UserId, client: ClientId, checks: bool)
    | SpendOp(code: CodeId)

  datatype Commit = Commit(op: Op, now: int)

  function Apply(st: Store, c: Commit): (Store, Outcome) {
    match c.op
    case PolicyOp(a, mode, enabled, revision) => SetAppPolicy(st, a, mode, enabled, revision, c.now)
    case AssignOp(a, p, on, until) => SetAssignment(st, a, p, on, until, c.now)
    case MemberOp(g, u, member, until, admitted) => SetMembership(st, g, u, member, until, admitted, c.now)
    case DeleteGroupOp(g, admitted) => DeleteGroup(st, g, admitted, c.now)
    case EndOp(u, asAdmin) => (EndItem(st, u, asAdmin, c.now), Ok)
    case LeaveOp(g, u) => (ExpireMember(st, (g, u)), Ok)
    case LapseOp(a, u) => (ExpireGrant(st, (a, u)), Ok)
    case SettleOp => (FollowUp(st, c.now), Ok)
    case UserOp(u, admin, active, endsAt, revoke) => EditUser(st, u, admin, active, endsAt, revoke, c.now)
    case ClientOp(client, enabled, revoke) => EditClient(st, client, enabled, revoke)
    case IssueOp(j, u, client, expiresAt, checks) => Issue(st, j, u, client, expiresAt, checks, c.now)
    case CodeOp(i, u, client, checks) => NewCode(st, i, u, client, checks, c.now)
    case SpendOp(i) => SpendCode(st, i)
  }

  /** The commit ran the revocation follow-up. */
  predicate RanFollowUp(st: Store, c: Commit) {
    && (c.op.PolicyOp? || c.op.AssignOp? || c.op.MemberOp? || c.op.DeleteGroupOp? || c.op.SettleOp?)
    && Apply(st, c).1.Ok?
  }

  function Run(st: Store, cs: seq<Commit>): Store
    decreases |cs|
  {
    if cs == [] then st else Run(Apply(st, cs[0]).0, cs[1..])
  }

  predicate LiveToken(st: Store, j: Jti) {
    j in st.tokens && !st.tokens[j].revoked
  }

  predicate Descends(t: Token, t': Token) {
    t'.user == t.user && t'.client == t.client && (t.revoked ==> t'.revoked)
  }

  /** No grant appears; a token may end, a code may go. */
  predicate Shrinks(st: Store, st': Store) {
    && st'.tokens.Keys == st.tokens.Keys && st'.codeIds == st.codeIds
    && (forall j :: j in st.tokens ==> Descends(st.tokens[j], st'.tokens[j]))
    && (forall i :: i in st'.codes ==> i in st.codes && st'.codes[i] == st.codes[i])
  }

  /** A grant that has ended stays ended, and the others keep who they are for. */
  predicate NothingRevived(st: Store, st': Store) {
    && st.tokens.Keys <= st'.tokens.Keys && st.codeIds <= st'.codeIds
    && (forall j :: j in st.tokens ==> Descends(st.tokens[j], st'.tokens[j]))
    && (forall i :: i in st'.codes && i in st.codeIds ==>
          i in st.codes && st'.codes[i].user == st.codes[i].user && st'.codes[i].client == st.codes[i].client)
  }

  predicate CodesKnown(st: Store) {
    forall i :: i in st.codes ==> i in st.codeIds
  }

  /** Only effective access keeps a grant through the follow-up. */
  predicate AllHaveAccess(st: Store, now: int) {
    && (forall j :: j in st.tokens && LiveToken(st, j) ==>
       ClientAccess(st.dir, st.tokens[j].client, st.tokens[j].user, now))
    && (forall i :: i in st.codes ==> ClientAccess(st.dir, st.codes[i].client, st.codes[i].user, now))
  }

  // ---- one commit -----------------------------------------------------------------------------------

  lemma ShrinksTwice(a: Store, b: Store, c: Store)
    requires Shrinks(a, b) && Shrinks(b, c)
    ensures Shrinks(a, c)
  {
  }

  lemma RevokeLostShrinks(st: Store, now: int)
    ensures Shrinks(st, RevokeLost(st, now))
  {
  }

  lemma RevokeUsersShrinks(st: Store, users: set<UserId>)
    ensures Shrinks(st, RevokeUsers(st, users))
  {
  }

  lemma RoleChangeShrinks(st: Store, apps: set<AppId>, users: set<UserId>)
    ensures Shrinks(st, RoleChange(st, apps, users))
  {
  }

  lemma EndItemShrinks(st: Store, u: UserId, asAdmin: bool, now: int)
    ensures Shrinks(st, EndItem(st, u, asAdmin, now))
  {
  }

  lemma ExpireMemberShrinks(st: Store, p: (GroupId, UserId))
    ensures Shrinks(st, ExpireMember(st, p))
  {
    var st1 := st.(dir := st.dir.(members := st.dir.members - {p}));
    var st2 := RoleChange(st1, MappedApps(st1.dir, p.0), {p.1});
    RoleChangeShrinks(st1, MappedApps(st1.dir, p.0), {p.1});
    RevokeUsersShrinks(st2, {p.1});
    ShrinksTwice(st, st1, st2);
    ShrinksTwice(st, st2, ExpireMember(st, p));
  }

  lemma SettleShrinks(st: Store, now: int)
    ensures Shrinks(st, FollowUp(st, now))
  {
    var st1 := st.(requests := FollowUp(st, now).requests);
    RevokeLostShrinks(st1, now);
    ShrinksTwice(st, st1, FollowUp(st, now));
  }

  lemma MemberShrinks(st: Store, g: GroupId, u: UserId, member: bool, until: Option<int>, admitted: bool, now: int)
    ensures Shrinks(st, SetMembership(st, g, u, member, until, admitted, now).0)
  {
    if SetMembership(st, g, u, member, until, admitted, now).1.Ok? {
      var changed := if member then (g, u) !in st.dir.members || st.dir.members[(g, u)] != until
        else (g, u) in st.dir.members;
      var st1 := st.(dir := st.dir.(members := if member then st.dir.members[(g, u) := until]
        else st.dir.members - {(g, u)}));
      var st2 := if changed && g in st.dir.policed then RevokeUsers(st1, {u}) else st1;
      RevokeUsersShrinks(st1, {u});
      var st3 := if changed then RoleChange(st2, MappedApps(st2.dir, g), {u}) else st2;
      RoleChangeShrinks(st2, MappedApps(st2.dir, g), {u});
      ShrinksTwice(st1, st2, st3);
      RevokeLostShrinks(st3, now);
      ShrinksTwice(st1, st3, RevokeLost(st3, now));
      ShrinksTwice(st, st1, RevokeLost(st3, now));
    }
  }

  lemma DeleteGroupShrinks(st: Store, g: GroupId, admitted: bool, now: int)
    ensures Shrinks(st, DeleteGroup(st, g, admitted, now).0)
  {
    if DeleteGroup(st, g, admitted, now).1.Ok? {
      var ms := MembersOf(st.dir, g);
      var st1 := if g in st.dir.policed then RevokeUsers(st, ms) else st;
      RevokeUsersShrinks(st, ms);
      var st2 := st1.(dir := WithoutGroup(st1.dir, g));
      var st3 := RoleChange(st2, MappedApps(st.dir, g), ms);
      RoleChangeShrinks(st2, MappedApps(st.dir, g), ms);
      RevokeLostShrinks(st3, now);
      ShrinksTwice(st2, st3, RevokeLost(st3, now));
      ShrinksTwice(st, st2, RevokeLost(st3, now));
    }
  }

  lemma PolicyShrinks(st: Store, c: Commit)
    requires c.op.PolicyOp? || c.op.AssignOp?
    ensures Shrinks(st, Apply(st, c).0)
  {
    if Apply(st, c).1.Ok? {
      var st1 := st.(dir := Apply(st, c).0.dir);
      RevokeLostShrinks(st1, c.now);
      ShrinksTwice(st, st1, RevokeLost(st1, c.now));
    }
  }

  lemma UserShrinks(st: Store, u: UserId, admin: bool, active: bool, endsAt: Option<int>, revoke: bool, now: int)
    ensures Shrinks(st, EditUser(st, u, admin, active, endsAt, revoke, now).0)
  {
    var st1 := st.(dir := EditUser(st, u, admin, active, endsAt, revoke, now).0.dir);
    RevokeUsersShrinks(st1, {u});
  }

  lemma ClientShrinks(st: Store, client: ClientId, enabled: bool, revoke: bool)
    ensures Shrinks(st, EditClient(st, client, enabled, revoke).0)
  {
  }

  /** Every commit that does not issue a grant can only end grants. */
  lemma CommitShrinks(st: Store, c: Commit)
    requires !c.op.IssueOp? && !c.op.CodeOp? && !c.op.SpendOp?
    ensures Shrinks(st, Apply(st, c).0)
  {
    match c.op
    case PolicyOp(a, mode, enabled, revision) => PolicyShrinks(st, c);
    case AssignOp(a, p, on, until) => PolicyShrinks(st, c);
    case MemberOp(g, u, member, until, admitted) => MemberShrinks(st, g, u, member, until, admitted, c.now);
    case DeleteGroupOp(g, admitted) => DeleteGroupShrinks(st, g, admitted, c.now);
    case EndOp(u, asAdmin) => EndItemShrinks(st, u, asAdmin, c.now);
    case LeaveOp(g, u) => ExpireMemberShrinks(st, (g, u));
    case LapseOp(a, u) =>
    case SettleOp => SettleShrinks(st, c.now);
    case UserOp(u, admin, active, endsAt, revoke) => UserShrinks(st, u, admin, active, endsAt, revoke, c.now);
    case ClientOp(client, enabled, revoke) => ClientShrinks(st, client, enabled, revoke);
  }

  lemma CommitRevivesNothing(st: Store, c: Commit)
    requires CodesKnown(st)
    ensures NothingRevived(st, Apply(st, c).0) && CodesKnown(Apply(st, c).0)
  {
    if !c.op.IssueOp? && !c.op.CodeOp? && !c.op.SpendOp? {
      CommitShrinks(st, c);
    }
  }

  lemma RevivesNothingTwice(a: Store, b: Store, c: Store)
    requires NothingRevived(a, b) && NothingRevived(b, c)
    ensures NothingRevived(a, c)
  {
  }

  lemma RevokeLostLeavesAccess(st: Store, now: int)
    ensures AllHaveAccess(RevokeLost(st, now), now)
  {
    assert RevokeLost(st, now).dir == st.dir;
  }

  /** After a commit that ran the follow-up, every live token and every code has effective access. */
  lemma FollowUpLeavesAccess(st: Store, c: Commit)
    requires RanFollowUp(st, c)
    ensures AllHaveAccess(Apply(st, c).0, c.now)
  {
    match c.op
    case PolicyOp(a, mode, enabled, revision) =>
      var app := st.dir.apps[a].(mode := mode, enabled := enabled, revision := revision + 1);
      RevokeLostLeavesAccess(st.(dir := st.dir.(apps := st.dir.apps[a := app])), c.now);
    case AssignOp(a, p, on, until) =>
      var app := st.dir.apps[a].(revision := st.dir.apps[a].revision + 1);
      RevokeLostLeavesAccess(st.(dir := Assign(st.dir.(apps := st.dir.apps[a := app]), a, p, on, until)), c.now);
    case MemberOp(g, u, member, until, admitted) =>
      var changed := if member then (g, u) !in st.dir.members || st.dir.members[(g, u)] != until
        else (g, u) in st.dir.members;
      var st1 := st.(dir := st.dir.(members := if member then st.dir.members[(g, u) := until]
        else st.dir.members - {(g, u)}));
      var st2 := if changed && g in st.dir.policed then RevokeUsers(st1, {u}) else st1;
      RevokeLostLeavesAccess(if changed then RoleChange(st2, MappedApps(st2.dir, g), {u}) else st2, c.now);
    case DeleteGroupOp(g, admitted) =>
      var st1 := if g in st.dir.policed then RevokeUsers(st, MembersOf(st.dir, g)) else st;
      var st2 := st1.(dir := WithoutGroup(st1.dir, g));
      RevokeLostLeavesAccess(RoleChange(st2, MappedApps(st.dir, g), MembersOf(st.dir, g)), c.now);
    case SettleOp => RevokeLostLeavesAccess(st.(requests := FollowUp(st, c.now).requests), c.now);
  }

  // ---- what a commit does, and no more --------------------------------------------------------------

  /** Users whose own rows the commit leaves alone. */
  predicate Bystander(st: Store, op: Op, user: UserId) {
    match op
    case PolicyOp(_, _, _, _) => true
    case AssignOp(_, _, _, _) => true
    case MemberOp(_, u, _, _, _) => user != u
    case DeleteGroupOp(g, _) => user !in MembersOf(st.dir, g)
    case SettleOp => true
    case _ => false
  }

  /** `st'` kept exactly the grants of the user that have access. */
  ghost predicate KeptExactly(st: Store, st': Store, user: UserId, now: int) {
    && (forall j :: j in st.tokens && st.tokens[j].user == user ==>
          j in st'.tokens && (LiveToken(st', j) <==>
            LiveToken(st, j) && ClientAccess(st'.dir, st.tokens[j].client, user, now)))
    && (forall i :: i in st.codes && st.codes[i].user == user ==>
          (i in st'.codes <==> ClientAccess(st'.dir, st.codes[i].client, user, now)))
  }

  predicate SameGrants(st: Store, st': Store, user: UserId) {
    && (forall j :: j in st.tokens && st.tokens[j].user == user ==> j in st'.tokens && st'.tokens[j] == st.tokens[j])
    && (forall i :: i in st.codes && st.codes[i].user == user ==> i in st'.codes && st'.codes[i] == st.codes[i])
  }

  lemma RevokeLostExactly(st: Store, mid: Store, user: UserId, now: int)
    requires SameGrants(st, mid, user)
    ensures KeptExactly(st, RevokeLost(mid, now), user, now)
  {
  }

  lemma OthersKeepGrants(st: Store, users: set<UserId>, apps: set<AppId>, user: UserId)
    requires user !in users
    ensures SameGrants(st, RevokeUsers(st, users), user) && SameGrants(st, RoleChange(st, apps, users), user)
  {
  }

  lemma MemberKeptExactly(st: Store, g: GroupId, u: UserId, member: bool, until: Option<int>, admitted: bool, now: int,
      user: UserId)
    requires SetMembership(st, g, u, member, until, admitted, now).1.Ok? && user != u
    ensures KeptExactly(st, SetMembership(st, g, u, member, until, admitted, now).0, user, now)
  {
    var changed := if member then (g, u) !in st.dir.members || st.dir.members[(g, u)] != until
      else (g, u) in st.dir.members;
    var st1 := st.(dir := st.dir.(members := if member then st.dir.members[(g, u) := until]
      else st.dir.members - {(g, u)}));
    var st2 := if changed && g in st.dir.policed then RevokeUsers(st1, {u}) else st1;
    var st3 := if changed then RoleChange(st2, MappedApps(st2.dir, g), {u}) else st2;
    OthersKeepGrants(st1, {u}, {}, user);
    OthersKeepGrants(st2, {u}, MappedApps(st2.dir, g), user);
    RevokeLostExactly(st, st3, user, now);
  }

  lemma DeletionKeptExactly(st: Store, g: GroupId, admitted: bool, now: int, user: UserId)
    requires DeleteGroup(st, g, admitted, now).1.Ok? && user !in MembersOf(st.dir, g)
    ensures KeptExactly(st, DeleteGroup(st, g, admitted, now).0, user, now)
  {
    var us := MembersOf(st.dir, g);
    var st1 := if g in st.dir.policed then RevokeUsers(st, us) else st;
    var st2 := st1.(dir := WithoutGroup(st1.dir, g));
    var st3 := RoleChange(st2, MappedApps(st.dir, g), us);
    OthersKeepGrants(st, us, {}, user);
    OthersKeepGrants(st2, us, MappedApps(st.dir, g), user);
    assert SameGrants(st, st3, user);
    RevokeLostExactly(st, st3, user, now);
  }

  /** The follow-up ends what lost access and nothing else: a bystander's grant survives exactly with access. */
  lemma FollowUpEndsOnlyLost(st: Store, c: Commit, user: UserId)
    requires RanFollowUp(st, c) && Bystander(st, c.op, user)
    ensures KeptExactly(st, Apply(st, c).0, user, c.now)
  {
    match c.op
    case PolicyOp(a, mode, enabled, revision) =>
      var app := st.dir.apps[a].(mode := mode, enabled := enabled, revision := revision + 1);
      RevokeLostExactly(st, st.(dir := st.dir.(apps := st.dir.apps[a := app])), user, c.now);
    case AssignOp(a, p, on, until) =>
      var app := st.dir.apps[a].(revision := st.dir.apps[a].revision + 1);
      RevokeLostExactly(st, st.(dir := Assign(st.dir.(apps := st.dir.apps[a := app]), a, p, on, until)), user, c.now);
    case MemberOp(g, u, member, until, admitted) => MemberKeptExactly(st, g, u, member, until, admitted, c.now, user);
    case DeleteGroupOp(g, admitted) => DeletionKeptExactly(st, g, admitted, c.now, user);
    case SettleOp => RevokeLostExactly(st, st.(requests := FollowUp(st, c.now).requests), user, c.now);
  }

  // ---- whole runs -----------------------------------------------------------------------------------

  /** At every commit of the run that ran the follow-up, the user had effective access. */
  predicate HeldThroughout(st: Store, cs: seq<Commit>, client: ClientId, user: UserId)
    decreases |cs|
  {
    cs == [] ||
    (&& (RanFollowUp(st, cs[0]) ==> ClientAccess(Apply(st, cs[0]).0.dir, client, user, cs[0].now))
     && HeldThroughout(Apply(st, cs[0]).0, cs[1..], client, user))
  }

  lemma {:induction false} RunRevivesNothing(st: Store, cs: seq<Commit>)
    requires CodesKnown(st)
    ensures NothingRevived(st, Run(st, cs)) && CodesKnown(Run(st, cs))
    decreases |cs|
  {
    if cs != [] {
      CommitRevivesNothing(st, cs[0]);
      RunRevivesNothing(Apply(st, cs[0]).0, cs[1..]);
      RevivesNothingTwice(st, Apply(st, cs[0]).0, Run(st, cs));
    }
  }

  /** A token live at the end of a run: its user had access at every follow-up since it existed. */
  lemma {:induction false} LiveTokenHeldAccess(st: Store, cs: seq<Commit>, j: Jti)
    requires CodesKnown(st) && j in st.tokens && LiveToken(Run(st, cs), j)
    ensures HeldThroughout(st, cs, st.tokens[j].client, st.tokens[j].user)
    decreases |cs|
  {
    if cs != [] {
      var st1 := Apply(st, cs[0]).0;
      CommitRevivesNothing(st, cs[0]);
      RunRevivesNothing(st1, cs[1..]);
      assert LiveToken(st1, j);
      if RanFollowUp(st, cs[0]) {
        FollowUpLeavesAccess(st, cs[0]);
      }
      LiveTokenHeldAccess(st1, cs[1..], j);
    }
  }

  /** The same of an authorization code that still exists. */
  lemma {:induction false} LiveCodeHeldAccess(st: Store, cs: seq<Commit>, i: CodeId)
    requires CodesKnown(st) && i in st.codes && i in Run(st, cs).codes
    ensures HeldThroughout(st, cs, st.codes[i].client, st.codes[i].user)
    decreases |cs|
  {
    if cs != [] {
      var st1 := Apply(st, cs[0]).0;
      CommitRevivesNothing(st, cs[0]);
      RunRevivesNothing(st1, cs[1..]);
      assert i in st1.codeIds && i in st1.codes;
      if RanFollowUp(st, cs[0]) {
        FollowUpLeavesAccess(st, cs[0]);
      }
      LiveCodeHeldAccess(st1, cs[1..], i);
    }
  }

  /**
   Where a live token came from: some commit of the run issued it while its user had access, and
   the user had access at every follow-up commit after that. Re-granting therefore revives none.
   */
  lemma {:induction false} LiveTokenHistory(st: Store, cs: seq<Commit>, j: Jti) returns (k: nat)
    requires CodesKnown(st) && j !in st.tokens && LiveToken(Run(st, cs), j)
    ensures k < |cs| && cs[k].op.IssueOp? && cs[k].op.jti == j
    ensures var before, op := Run(st, cs[..k]), cs[k].op;
      && Apply(before, cs[k]).1.Ok? && ClientAccess(before.dir, op.client, op.user, cs[k].now)
      && HeldThroughout(Apply(before, cs[k]).0, cs[k + 1..], op.client, op.user)
    decreases |cs|
  {
    var st1 := Apply(st, cs[0]).0;
    if j in st1.tokens {
      OnlyIssueAdds(st, cs[0], j);
      CommitRevivesNothing(st, cs[0]);
      LiveTokenHeldAccess(st1, cs[1..], j);
      k := 0;
      assert cs[..0] == [];
    } else {
      CommitRevivesNothing(st, cs[0]);
      var m := LiveTokenHistory(st1, cs[1..], j);
      k := m + 1;
      RunPrefix(st, cs, m);
      assert cs[k + 1..] == cs[1..][m + 1..];
    }
  }

  /** And where a code that still exists came from. */
  lemma {:induction false} LiveCodeHistory(st: Store, cs: seq<Commit>, i: CodeId) returns (k: nat)
    requires CodesKnown(st) && i !in st.codes && i in Run(st, cs).codes
    ensures k < |cs| && cs[k].op.CodeOp? && cs[k].op.code == i
    ensures var before, op := Run(st, cs[..k]), cs[k].op;
      && Apply(before, cs[k]).1.Ok? && ClientAccess(before.dir, op.client, op.user, cs[k].now)
      && HeldThroughout(Apply(before, cs[k]).0, cs[k + 1..], op.client, op.user)
    decreases |cs|
  {
    var st1 := Apply(st, cs[0]).0;
    CommitRevivesNothing(st, cs[0]);
    if i in st1.codes {
      OnlyCodeAdds(st, cs[0], i);
      LiveCodeHeldAccess(st1, cs[1..], i);
      k := 0;
      assert cs[..0] == [];
    } else {
      var m := LiveCodeHistory(st1, cs[1..], i);
      k := m + 1;
      RunPrefix(st, cs, m);
      assert cs[k + 1..] == cs[1..][m + 1..];
    }
  }

  lemma OnlyCodeAdds(st: Store, c: Commit, i: CodeId)
    requires i !in st.codes && i in Apply(st, c).0.codes
    ensures c.op.CodeOp? && c.op.code == i && Apply(st, c).1.Ok?
  {
    if !c.op.IssueOp? && !c.op.CodeOp? && !c.op.SpendOp? {
      CommitShrinks(st, c);
    }
  }

  lemma RunPrefix(st: Store, cs: seq<Commit>, m: nat)
    requires m < |cs|
    ensures Run(st, cs[..m + 1]) == Run(Apply(st, cs[0]).0, cs[1..][..m])
  {
    assert cs[..m + 1][1..] == cs[1..][..m];
  }

  lemma OnlyIssueAdds(st: Store, c: Commit, j: Jti)
    requires j !in st.tokens && j in Apply(st, c).0.tokens
    ensures c.op.IssueOp? && c.op.jti == j && Apply(st, c).1.Ok?
  {
    if !c.op.IssueOp? && !c.op.CodeOp? && !c.op.SpendOp? {
      CommitShrinks(st, c);
    }
  }

  // ---- which commits keep every grant backed by access ----------------------------------------------

  lemma UserEditFrame(d: Directory, u: UserId, row: User, client: ClientId, user: UserId, now: int)
    requires ClientAccess(d, client, user, now)
    requires user == u ==> row.active && Live(row.endsAt, now)
    ensures ClientAccess(d.(users := d.users[u := row]), client, user, now)
  {
    var d' := d.(users := d.users[u := row]);
    var a :| a in d.apps && AppOf(d, client, a) && Access(d, a, user, now);
    assert DirectGrant(d', a, user, now) <==> DirectGrant(d, a, user, now);
    assert GroupGrant(d', a, user, now) <==> GroupGrant(d, a, user, now);
    assert Access(d', a, user, now);
  }

  lemma UserEditKeepsAccess(st: Store, u: UserId, admin: bool, active: bool, endsAt: Option<int>, revoke: bool,
      now: int)
    requires AllHaveAccess(st, now)
    ensures AllHaveAccess(EditUser(st, u, admin, active, endsAt, revoke, now).0, now)
  {
    var (st', r) := EditUser(st, u, admin, active, endsAt, revoke, now);
    if r.Ok? {
      assert st'.dir == st.dir.(users := st.dir.users[u := User(admin, active, endsAt)]);
      forall j | j in st'.tokens && LiveToken(st', j)
        ensures ClientAccess(st'.dir, st'.tokens[j].client, st'.tokens[j].user, now) {
        assert LiveToken(st, j) && st'.tokens[j] == st.tokens[j];
        UserEditFrame(st.dir, u, User(admin, active, endsAt), st.tokens[j].client, st.tokens[j].user, now);
      }
      forall i | i in st'.codes ensures ClientAccess(st'.dir, st'.codes[i].client, st'.codes[i].user, now) {
        UserEditFrame(st.dir, u, User(admin, active, endsAt), st.codes[i].client, st.codes[i].user, now);
      }
    }
  }

  lemma ClientEditFrame(d: Directory, c: ClientId, enabled: bool, client: ClientId, user: UserId, now: int)
    requires c in d.clients && ClientAccess(d, client, user, now)
    ensures ClientAccess(d.(clients := d.clients[c := enabled]), client, user, now) <==> client != c || enabled
  {
    var d' := d.(clients := d.clients[c := enabled]);
    var a :| a in d.apps && AppOf(d, client, a) && Access(d, a, user, now);
    assert DirectGrant(d', a, user, now) <==> DirectGrant(d, a, user, now);
    assert GroupGrant(d', a, user, now) <==> GroupGrant(d, a, user, now);
    assert Access(d', a, user, now) <==> client != c || enabled;
  }

  predicate StrandsCodes(st: Store, c: Commit) {
    c.op.ClientOp? && !c.op.enabled && exists i :: i in st.codes && st.codes[i].client == c.op.client
  }

  lemma ClientEditKeepsAccess(st: Store, client: ClientId, enabled: bool, revoke: bool, now: int)
    requires AllHaveAccess(st, now)
    ensures AllHaveAccess(EditClient(st, client, enabled, revoke).0, now) <==>
      !StrandsCodes(st, Commit(ClientOp(client, enabled, revoke), now))
  {
    var st' := EditClient(st, client, enabled, revoke).0;
    assert st'.codes == st.codes && st'.dir == if client in st.dir.clients
      then st.dir.(clients := st.dir.clients[client := enabled]) else st.dir;
    forall j | j in st'.tokens && LiveToken(st', j)
      ensures ClientAccess(st'.dir, st'.tokens[j].client, st'.tokens[j].user, now) {
      assert LiveToken(st, j) && st'.tokens[j] == st.tokens[j];
      if client in st.dir.clients {
        ClientEditFrame(st.dir, client, enabled, st.tokens[j].client, st.tokens[j].user, now);
      }
    }
    forall i | i in st.codes
      ensures ClientAccess(st'.dir, st.codes[i].client, st.codes[i].user, now) <==>
        st.codes[i].client != client || enabled
    {
      if client in st.dir.clients {
        ClientEditFrame(st.dir, client, enabled, st.codes[i].client, st.codes[i].user, now);
      }
    }
  }

  lemma EndItemKeepsAccess(st: Store, u: UserId, asAdmin: bool, now: int)
    requires AllHaveAccess(st, now)
    ensures AllHaveAccess(EndItem(st, u, asAdmin, now), now)
  {
    var st' := EndItem(st, u, asAdmin, now);
    if u in st.dir.users {
      var row := st'.dir.users[u];
      assert st'.dir == st.dir.(users := st.dir.users[u := row]);
      forall j | j in st'.tokens && LiveToken(st', j)
        ensures ClientAccess(st'.dir, st'.tokens[j].client, st'.tokens[j].user, now) {
        assert LiveToken(st, j) && st'.tokens[j] == st.tokens[j];
        UserEditFrame(st.dir, u, row, st.tokens[j].client, st.tokens[j].user, now);
      }
      forall i | i in st'.codes ensures ClientAccess(st'.dir, st'.codes[i].client, st'.codes[i].user, now) {
        UserEditFrame(st.dir, u, row, st.codes[i].client, st.codes[i].user, now);
      }
    }
  }

  /** The record lets the user in by this direct grant and nothing else. */
  predicate OnlyDirect(d: Directory, a: AppId, u: UserId, now: int) {
    a in d.apps && d.apps[a].mode.AssignedOnly? && DirectGrant(d, a, u, now) && !GroupGrant(d, a, u, now)
  }

  /** The record lets the user in by this group and nothing else. */
  predicate OnlyGroup(d: Directory, a: AppId, g: GroupId, u: UserId, now: int) {
    && a in d.apps && d.apps[a].mode.AssignedOnly? && !DirectGrant(d, a, u, now)
    && forall p :: p in d.granted && p.0 == a && LiveMember(d, p.1, u, now) ==> p.1 == g
  }

  /** A client whose every way in for the user is the direct grant the item removes. */
  ghost predicate HangsOnGrant(d: Directory, a: AppId, u: UserId, c: ClientId, now: int) {
    OnlyDirect(d, a, u, now) && forall b :: AppOf(d, c, b) && Access(d, b, u, now) ==> b == a
  }

  /** A client whose every way in for the user is the membership the item removes. */
  ghost predicate HangsOnMembership(d: Directory, g: GroupId, u: UserId, c: ClientId, now: int) {
    LiveMember(d, g, u, now) && forall b :: AppOf(d, c, b) && Access(d, b, u, now) ==> OnlyGroup(d, b, g, u, now)
  }

  /** The role follow-up of the departure leaves the user's grants at this client alone. */
  predicate SparedByLeave(st: Store, g: GroupId, c: ClientId) {
    g !in st.dir.policed && !RoleClient(st.dir, g, c)
  }

  /** The user holds a live token or a code at the client. */
  predicate HasGrantAt(st: Store, c: ClientId, u: UserId) {
    || (exists j :: j in st.tokens && LiveToken(st, j) && st.tokens[j].client == c && st.tokens[j].user == u)
    || (exists i :: i in st.codes && st.codes[i].client == c && st.codes[i].user == u)
  }

  /**
   The commits that leave a grant without access: disabling a client that has pending codes, and an item
   of the expiry pass whose row was extended after the pass had found it, when access hangs on that row.
   */
  ghost predicate Strands(st: Store, c: Commit) {
    match c.op
    case LapseOp(a, u) => exists client :: HasGrantAt(st, client, u) && HangsOnGrant(st.dir, a, u, client, c.now)
    case LeaveOp(g, u) =>
      exists client ::
        HasGrantAt(st, client, u) && SparedByLeave(st, g, client) && HangsOnMembership(st.dir, g, u, client, c.now)
    case _ => StrandsCodes(st, c)
  }

  lemma LapsedAccess(st: Store, a: AppId, u: UserId, b: AppId, v: UserId, now: int)
    ensures Access(ExpireGrant(st, (a, u)).dir, b, v, now) <==>
      Access(st.dir, b, v, now) && !(b == a && v == u && OnlyDirect(st.dir, a, u, now))
  {
    var d' := ExpireGrant(st, (a, u)).dir;
    assert GroupGrant(d', b, v, now) == GroupGrant(st.dir, b, v, now);
  }

  lemma LapsedClientAccess(st: Store, a: AppId, u: UserId, c: ClientId, v: UserId, now: int)
    requires ClientAccess(st.dir, c, v, now)
    ensures ClientAccess(ExpireGrant(st, (a, u)).dir, c, v, now) <==> !(v == u && HangsOnGrant(st.dir, a, u, c, now))
  {
    var d, d' := st.dir, ExpireGrant(st, (a, u)).dir;
    forall b ensures AppOf(d', c, b) <==> AppOf(d, c, b) {
    }
    forall b ensures Access(d', b, v, now) <==>
      Access(d, b, v, now) && !(b == a && v == u && OnlyDirect(d, a, u, now)) {
      LapsedAccess(st, a, u, b, v, now);
    }
  }

  lemma LapseKeepsAccess(st: Store, a: AppId, u: UserId, now: int)
    requires AllHaveAccess(st, now)
    ensures AllHaveAccess(ExpireGrant(st, (a, u)), now) <==> !Strands(st, Commit(LapseOp(a, u), now))
  {
    var st' := ExpireGrant(st, (a, u));
    forall j | j in st.tokens && LiveToken(st, j)
      ensures ClientAccess(st'.dir, st.tokens[j].client, st.tokens[j].user, now) <==>
        !(st.tokens[j].user == u && HangsOnGrant(st.dir, a, u, st.tokens[j].client, now))
    {
      LapsedClientAccess(st, a, u, st.tokens[j].client, st.tokens[j].user, now);
    }
    forall i | i in st.codes
      ensures ClientAccess(st'.dir, st.codes[i].client, st.codes[i].user, now) <==>
        !(st.codes[i].user == u && HangsOnGrant(st.dir, a, u, st.codes[i].client, now))
    {
      LapsedClientAccess(st, a, u, st.codes[i].client, st.codes[i].user, now);
    }
    assert forall j :: j in st.tokens ==> (LiveToken(st', j) <==> LiveToken(st, j));
  }

  lemma LeftAccess(st: Store, g: GroupId, u: UserId, b: AppId, v: UserId, now: int)
    ensures Access(ExpireMember(st, (g, u)).dir, b, v, now) <==>
      Access(st.dir, b, v, now) && !(v == u && LiveMember(st.dir, g, u, now) && OnlyGroup(st.dir, b, g, u, now))
  {
    ExpireMemberEffect(st, (g, u));
    var d, d' := st.dir, ExpireMember(st, (g, u)).dir;
    forall h ensures LiveMember(d', h, v, now) <==> LiveMember(d, h, v, now) && !(h == g && v == u) {
    }
    if GroupGrant(d, b, v, now) && !GroupGrant(d', b, v, now) {
      assert v == u && forall p :: p in d.granted && p.0 == b && LiveMember(d, p.1, v, now) ==> p.1 == g;
    }
  }

  lemma LeftClientAccess(st: Store, g: GroupId, u: UserId, c: ClientId, v: UserId, now: int)
    requires ClientAccess(st.dir, c, v, now)
    ensures ClientAccess(ExpireMember(st, (g, u)).dir, c, v, now) <==>
      !(v == u && HangsOnMembership(st.dir, g, u, c, now))
  {
    ExpireMemberEffect(st, (g, u));
    var d, d' := st.dir, ExpireMember(st, (g, u)).dir;
    forall b ensures AppOf(d', c, b) <==> AppOf(d, c, b) {
    }
    forall b ensures Access(d', b, v, now) <==>
      Access(d, b, v, now) && !(v == u && LiveMember(d, g, u, now) && OnlyGroup(d, b, g, u, now)) {
      LeftAccess(st, g, u, b, v, now);
    }
  }

  /** `st'` keeps everybody else's grants, and the user's own exactly at the clients in question. */
  ghost predicate KeepsWhere(st: Store, st': Store, u: UserId, spared: ClientId -> bool) {
    && st'.tokens.Keys == st.tokens.Keys
    && (forall j :: j in st.tokens ==>
          && st'.tokens[j].client == st.tokens[j].client && st'.tokens[j].user == st.tokens[j].user
          && (LiveToken(st', j) <==> LiveToken(st, j) && (st.tokens[j].user == u ==> spared(st.tokens[j].client))))
    && (forall i :: i in st'.codes <==> i in st.codes && (st.codes[i].user == u ==> spared(st.codes[i].client)))
    && (forall i :: i in st'.codes ==> st'.codes[i] == st.codes[i])
  }

  lemma RoleChangeKeepsWhere(st: Store, apps: set<AppId>, u: UserId, clients: set<ClientId>)
    requires clients == ClientsOf(st.dir, apps)
    ensures KeepsWhere(st, RoleChange(st, apps, {u}), u, (c: ClientId) => c !in clients)
  {
  }

  lemma RevokeKeepsNowhere(st: Store, u: UserId)
    ensures KeepsWhere(st, RevokeUsers(st, {u}), u, (c: ClientId) => false)
  {
  }

  lemma KeepsWhereTwice(a: Store, b: Store, c: Store, u: UserId, p: ClientId -> bool, q: ClientId -> bool,
      r: ClientId -> bool)
    requires KeepsWhere(a, b, u, p) && KeepsWhere(b, c, u, q) && forall x :: r(x) <==> p(x) && q(x)
    ensures KeepsWhere(a, c, u, r)
  {
  }

  lemma SameWhere(a: Store, b: Store, u: UserId, p: ClientId -> bool, q: ClientId -> bool)
    requires KeepsWhere(a, b, u, p) && forall x :: p(x) <==> q(x)
    ensures KeepsWhere(a, b, u, q)
  {
  }

  lemma MappedClients(d: Directory, g: GroupId, c: ClientId)
    ensures forall a :: a in MappedApps(d, g) <==> MapsRole(d, g, a)
    ensures c in ClientsOf(d, MappedApps(d, g)) <==> RoleClient(d, g, c)
  {
    if RoleClient(d, g, c) {
      var a :| a in d.apps && AppOf(d, c, a) && MapsRole(d, g, a);
      assert a in MappedApps(d, g);
    }
  }

  /** Which grants survive a departure: everybody else's, and the user's own where it is spared. */
  lemma LeaveSpares(st: Store, g: GroupId, u: UserId)
    ensures KeepsWhere(st, ExpireMember(st, (g, u)), u, (c: ClientId) => SparedByLeave(st, g, c))
  {
    var st1 := st.(dir := st.dir.(members := st.dir.members - {(g, u)}));
    var apps := MappedApps(st.dir, g);
    var clients := ClientsOf(st.dir, apps);
    assert MappedApps(st1.dir, g) == apps && ClientsOf(st1.dir, apps) == clients;
    forall c ensures c in clients <==> RoleClient(st.dir, g, c) {
      MappedClients(st.dir, g, c);
    }
    var st2 := RoleChange(st1, apps, {u});
    RoleChangeKeepsWhere(st1, apps, u, clients);
    assert KeepsWhere(st, st2, u, (c: ClientId) => c !in clients);
    if g in st.dir.policed {
      RevokeKeepsNowhere(st2, u);
      KeepsWhereTwice(st, st2, RevokeUsers(st2, {u}), u, (c: ClientId) => c !in clients, (c: ClientId) => false,
        (c: ClientId) => SparedByLeave(st, g, c));
    } else {
      SameWhere(st, st2, u, (c: ClientId) => c !in clients, (c: ClientId) => SparedByLeave(st, g, c));
    }
  }

  /** What is left of the grants is backed by access, except where the user's own were spared and lost it. */
  lemma SparedWithoutAccess(st: Store, st': Store, u: UserId, spared: ClientId -> bool, loses: ClientId -> bool,
      now: int)
    requires KeepsWhere(st, st', u, spared)
    requires forall j :: j in st.tokens && LiveToken(st, j) ==>
      (ClientAccess(st'.dir, st.tokens[j].client, st.tokens[j].user, now) <==>
        !(st.tokens[j].user == u && loses(st.tokens[j].client)))
    requires forall i :: i in st.codes ==>
      (ClientAccess(st'.dir, st.codes[i].client, st.codes[i].user, now) <==>
        !(st.codes[i].user == u && loses(st.codes[i].client)))
    ensures AllHaveAccess(st', now) <==> !exists c :: HasGrantAt(st, c, u) && spared(c) && loses(c)
  {
    if c :| HasGrantAt(st, c, u) && spared(c) && loses(c) {
      if j :| j in st.tokens && LiveToken(st, j) && st.tokens[j].client == c && st.tokens[j].user == u {
        assert LiveToken(st', j);
      }
    } else {
      forall j | j in st'.tokens && LiveToken(st', j)
        ensures ClientAccess(st'.dir, st'.tokens[j].client, st'.tokens[j].user, now)
      {
        assert LiveToken(st, j);
        assert st.tokens[j].user == u ==> HasGrantAt(st, st.tokens[j].client, u);
      }
      forall i | i in st'.codes ensures ClientAccess(st'.dir, st'.codes[i].client, st'.codes[i].user, now) {
        assert st.codes[i].user == u ==> HasGrantAt(st, st.codes[i].client, u);
      }
    }
  }

  lemma LeaveKeepsAccess(st: Store, g: GroupId, u: UserId, now: int)
    requires AllHaveAccess(st, now)
    ensures AllHaveAccess(ExpireMember(st, (g, u)), now) <==> !Strands(st, Commit(LeaveOp(g, u), now))
  {
    var st' := ExpireMember(st, (g, u));
    LeaveSpares(st, g, u);
    forall j | j in st.tokens && LiveToken(st, j)
      ensures ClientAccess(st'.dir, st.tokens[j].client, st.tokens[j].user, now) <==>
        !(st.tokens[j].user == u && HangsOnMembership(st.dir, g, u, st.tokens[j].client, now))
    {
      LeftClientAccess(st, g, u, st.tokens[j].client, st.tokens[j].user, now);
    }
    forall i | i in st.codes
      ensures ClientAccess(st'.dir, st.codes[i].client, st.codes[i].user, now) <==>
        !(st.codes[i].user == u && HangsOnMembership(st.dir, g, u, st.codes[i].client, now))
    {
      LeftClientAccess(st, g, u, st.codes[i].client, st.codes[i].user, now);
    }
    SparedWithoutAccess(st, st', u, (c: ClientId) => SparedByLeave(st, g, c),
      (c: ClientId) => HangsOnMembership(st.dir, g, u, c, now), now);
  }

  /**
   When a commit keeps, at its own instant, every live token and every code backed by effective access:
   exactly when it does not disable a client with pending codes, and is not an expiry item for a row that
   has been extended meanwhile and that access hangs on.
   */
  lemma CommitKeepsAccessUnlessStranding(st: Store, c: Commit)
    requires AllHaveAccess(st, c.now)
    ensures AllHaveAccess(Apply(st, c).0, c.now) <==> !Strands(st, c)
  {
    match c.op
    case ClientOp(client, enabled, revoke) => ClientEditKeepsAccess(st, client, enabled, revoke, c.now);
    case UserOp(u, admin, active, endsAt, revoke) => UserEditKeepsAccess(st, u, admin, active, endsAt, revoke, c.now);
    case EndOp(u, asAdmin) => EndItemKeepsAccess(st, u, asAdmin, c.now);
    case LapseOp(a, u) => LapseKeepsAccess(st, a, u, c.now);
    case LeaveOp(g, u) => LeaveKeepsAccess(st, g, u, c.now);
    case _ =>
      if RanFollowUp(st, c) {
        FollowUpLeavesAccess(st, c);
      }
  }

  /** A stranded code is usable again once the client is enabled. */
  lemma StrandedCodeReturns(st: Store, client: ClientId, i: CodeId, now: int)
    requires client in st.dir.clients && i in st.codes && st.codes[i].client == client
    requires AllHaveAccess(st, now)
    ensures var off := EditClient(st, client, false, false).0;
      var on := EditClient(off, client, true, false).0;
      && i in off.codes && !ClientAccess(off.dir, client, st.codes[i].user, now)
      && i in on.codes && ClientAccess(on.dir, client, st.codes[i].user, now)
  {
    var off := EditClient(st, client, false, false).0;
    var on := EditClient(off, client, true, false).0;
    assert on.dir.clients == st.dir.clients[client := true];
    ClientEditFrame(st.dir, client, false, client, st.codes[i].user, now);
    ClientEditFrame(st.dir, client, true, client, st.codes[i].user, now);
  }

  // ---- policy preview -------------------------------------------------------------------------------

  function UsersWithAccess(d: Directory, a: AppId, now: int): set<UserId> {
    set u | u in d.users && Access(d, a, u, now)
  }

  /** Whom the proposed policy would admit, from the current facts. */
  function Admitted(d: Directory, a: AppId, mode: Mode, enabled: bool, now: int): set<UserId>
    requires a in d.apps
  {
    set u | u in d.users
      && Allowed(Active(d, u, now), ClientOn(d, d.apps[a]), enabled, mode, DirectGrant(d, a, u, now),
         GroupGrant(d, a, u, now))
  }

  /** The counts shown before a policy edit are what the edit then does, user by user. */
  lemma PreviewMatchesEdit(st: Store, a: AppId, mode: Mode, enabled: bool, revision: nat, now: int)
    requires a in st.dir.apps && SetAppPolicy(st, a, mode, enabled, revision, now).1.Ok?
    ensures var d, d' := st.dir, SetAppPolicy(st, a, mode, enabled, revision, now).0.dir;
      && UsersWithAccess(d, a, now) - Admitted(d, a, mode, enabled, now) == UsersWithAccess(d, a,
         now) - UsersWithAccess(d', a, now)
      && Admitted(d, a, mode, enabled, now) - UsersWithAccess(d, a, now) == UsersWithAccess(d', a,
         now) - UsersWithAccess(d, a, now)
      && forall b :: b != a ==> UsersWithAccess(d', b, now) == UsersWithAccess(d, b, now)
  {
    var d, d' := st.dir, SetAppPolicy(st, a, mode, enabled, revision, now).0.dir;
    assert forall b, u :: DirectGrant(d', b, u, now) == DirectGrant(d, b, u, now);
    assert forall b, u :: GroupGrant(d', b, u, now) == GroupGrant(d, b, u, now);
    assert UsersWithAccess(d', a, now) == Admitted(d, a, mode, enabled, now);
  }
}
