/** An app record's revision is its lock: an edit is accepted only against the record it was made for. */
module Revisions {
  import opened Optional
  import opened Directory
  import opened Grants
  import opened Expiry
  import opened AccessRuns
  import opened AccessLocality

  /** The record's connections stay, its revision never falls, and while it stays nothing else changes. */
  ghost predicate Follows(d: Directory, d': Directory, a: AppId) {
    a in d.apps ==>
      && a in d'.apps && d.apps[a].revision <= d'.apps[a].revision && d'.apps[a].client == d.apps[a].client
      && (d.apps[a].revision == d'.apps[a].revision ==>
            && d'.apps[a] == d.apps[a]
            && forall u :: ((a, u) in d'.direct <==> (a, u) in d.direct) &&
                 ((a, u) in d.direct ==> d'.direct[(a, u)] == d.direct[(a, u)]))
  }

  lemma FollowsTwice(d: Directory, e: Directory, f: Directory, a: AppId)
    requires Follows(d, e, a) && Follows(e, f, a)
    ensures Follows(d, f, a)
  {
  }

  lemma RoleChangeFollows(st: Store, apps: set<AppId>, users: set<UserId>, a: AppId)
    ensures Follows(st.dir, RoleChange(st, apps, users).dir, a)
  {
  }

  lemma MembershipFollows(st: Store, g: GroupId, u: UserId, member: bool, until: Option<int>, admitted: bool, now: int,
      a: AppId)
    ensures Follows(st.dir, SetMembership(st, g, u, member, until, admitted, now).0.dir, a)
  {
    var d1 := st.dir.(members := if member then st.dir.members[(g, u) := until] else st.dir.members - {(g, u)});
    var st1 := st.(dir := d1);
    RoleChangeFollows(if g in d1.policed then RevokeUsers(st1, {u}) else st1, MappedApps(d1, g), {u}, a);
  }

  lemma DeletionFollows(st: Store, g: GroupId, admitted: bool, now: int, a: AppId)
    ensures Follows(st.dir, DeleteGroup(st, g, admitted, now).0.dir, a)
  {
    var us := MembersOf(st.dir, g);
    var st1 := if g in st.dir.policed then RevokeUsers(st, us) else st;
    RoleChangeFollows(st1.(dir := WithoutGroup(st1.dir, g)), MappedApps(st.dir, g), us, a);
  }

  lemma LeaveFollows(st: Store, g: GroupId, u: UserId, a: AppId)
    ensures Follows(st.dir, ExpireMember(st, (g, u)).dir, a)
  {
    var st1 := st.(dir := st.dir.(members := st.dir.members - {(g, u)}));
    RoleChangeFollows(st1, MappedApps(st1.dir, g), {u}, a);
  }

  /** A record whose revision goes up may change as it likes, but for its client. */
  lemma EditedRecordFollows(d: Directory, d': Directory, b: AppId, app: App, a: AppId)
    requires b in d.apps && d'.apps == d.apps[b := app]
    requires app.revision == d.apps[b].revision + 1 && app.client == d.apps[b].client
    requires forall p: (AppId, UserId) :: p.0 != b ==>
      (p in d'.direct <==> p in d.direct) && (p in d.direct ==> d'.direct[p] == d.direct[p])
    ensures Follows(d, d', a)
  {
    forall u | a != b ensures (a, u) in d'.direct <==> (a, u) in d.direct {
      assert (a, u).0 != b;
    }
  }

  lemma AssignmentFollows(st: Store, b: AppId, p: Principal, on: bool, until: Option<int>, now: int, a: AppId)
    ensures Follows(st.dir, SetAssignment(st, b, p, on, until, now).0.dir, a)
  {
    if SetAssignment(st, b, p, on, until, now).1.Ok? {
      var app := st.dir.apps[b].(revision := st.dir.apps[b].revision + 1);
      var d' := Assign(st.dir.(apps := st.dir.apps[b := app]), b, p, on, until);
      EditedRecordFollows(st.dir, d', b, app, a);
      assert SetAssignment(st, b, p, on, until, now).0.dir == d';
    }
  }

  lemma PolicyFollows(st: Store, b: AppId, mode: Mode, enabled: bool, revision: nat, now: int, a: AppId)
    ensures Follows(st.dir, SetAppPolicy(st, b, mode, enabled, revision, now).0.dir, a)
  {
    if SetAppPolicy(st, b, mode, enabled, revision, now).1.Ok? {
      var app := st.dir.apps[b].(mode := mode, enabled := enabled, revision := revision + 1);
      EditedRecordFollows(st.dir, st.dir.(apps := st.dir.apps[b := app]), b, app, a);
    }
  }

  lemma LapseFollows(st: Store, b: AppId, u: UserId, a: AppId)
    ensures Follows(st.dir, ExpireGrant(st, (b, u)).dir, a)
  {
    if b in st.dir.apps {
      EditedRecordFollows(st.dir, ExpireGrant(st, (b, u)).dir, b,
        st.dir.apps[b].(revision := st.dir.apps[b].revision + 1), a);
    }
  }

  lemma OtherCommitsLeaveRecords(st: Store, c: Commit)
    requires c.op.UserOp? || c.op.EndOp? || c.op.ClientOp? || c.op.SettleOp? || c.op.IssueOp? || c.op.CodeOp?
      || c.op.SpendOp?
    ensures Apply(st, c).0.dir.apps == st.dir.apps && Apply(st, c).0.dir.direct == st.dir.direct
  {
    match c.op
    case UserOp(u, admin, active, endsAt, revoke) => UserShape(st, u, admin, active, endsAt, revoke, c.now);
    case EndOp(u, asAdmin) => EndShape(st, u, asAdmin, c.now);
    case _ =>
  }

  lemma CommitFollows(st: Store, c: Commit, a: AppId)
    ensures Follows(st.dir, Apply(st, c).0.dir, a)
  {
    match c.op
    case PolicyOp(b, mode, enabled, revision) => PolicyFollows(st, b, mode, enabled, revision, c.now, a);
    case MemberOp(g, u, member, until, admitted) => MembershipFollows(st, g, u, member, until, admitted, c.now, a);
    case DeleteGroupOp(g, admitted) => DeletionFollows(st, g, admitted, c.now, a);
    case LeaveOp(g, u) => LeaveFollows(st, g, u, a);
    case LapseOp(b, u) => LapseFollows(st, b, u, a);
    case AssignOp(b, p, on, until) => AssignmentFollows(st, b, p, on, until, c.now, a);
    case _ => OtherCommitsLeaveRecords(st, c);
  }

  lemma {:induction false} RunFollows(st: Store, cs: seq<Commit>, a: AppId)
    ensures Follows(st.dir, Run(st, cs).dir, a)
    decreases |cs|
  {
    if cs != [] {
      CommitFollows(st, cs[0], a);
      RunFollows(Apply(st, cs[0]).0, cs[1..], a);
      FollowsTwice(st.dir, Apply(st, cs[0]).0.dir, Run(st, cs).dir, a);
    }
  }

  /**
   No lost update: a policy edit made on the record as read is accepted after any run of other commits
   only if they left the record and its direct grants as they were.
   */
  lemma AcceptedEditsAreCurrent(st: Store, cs: seq<Commit>, a: AppId, mode: Mode, enabled: bool, now: int)
    requires a in st.dir.apps
    requires SetAppPolicy(Run(st, cs), a, mode, enabled, st.dir.apps[a].revision, now).1.Ok?
    ensures var d := Run(st, cs).dir;
      && a in d.apps && d.apps[a] == st.dir.apps[a]
      && forall u, t :: DirectGrant(d, a, u, t) <==> DirectGrant(st.dir, a, u, t)
  {
    RunFollows(st, cs, a);
  }

  /** And of two edits made on the same record, the second is refused, whatever comes between. */
  lemma SecondEditIsRefused(st: Store, a: AppId, mode: Mode, enabled: bool, revision: nat, now: int, cs: seq<Commit>,
      mode': Mode, enabled': bool, later: int)
    requires SetAppPolicy(st, a, mode, enabled, revision, now).1.Ok?
    ensures var after := Run(SetAppPolicy(st, a, mode, enabled, revision, now).0, cs);
      SetAppPolicy(after, a, mode', enabled', revision, later) == (after, Conflict)
  {
    RunFollows(SetAppPolicy(st, a, mode, enabled, revision, now).0, cs, a);
  }
}
