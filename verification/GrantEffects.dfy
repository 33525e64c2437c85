/** When each commit is accepted, and what it writes besides the rows the other modules speak of. */
module GrantEffects {
  import opened Optional
  import opened Directory
  import opened Grants
  import opened Expiry
  import opened AccessRuns
  import opened RoleFollowUp

  /** What each commit asks of the rows it finds. */
  predicate Acceptable(st: Store, c: Commit) {
    var d, now := st.dir, c.now;
    match c.op
    case PolicyOp(a, _, _, revision) => a in d.apps && d.apps[a].revision == revision
    case AssignOp(a, AUser(u), on, until) => a in d.apps && u in d.users && (on ==> Live(until, now))
    case AssignOp(a, AGroup(g), _, until) => a in d.apps && g in d.groups && until.None?
    case MemberOp(g, u, member, until, admitted) =>
      && g in d.groups && u in d.users && (member ==> Live(until, now))
      && (MembershipChanges(d, g, u, member, until) && g in d.policed ==> admitted)
    case DeleteGroupOp(g, admitted) => g in d.groups && (g in d.policed ==> admitted)
    case UserOp(u, admin, active, endsAt, _) =>
      && u in d.users
      && (endsAt != d.users[u].endsAt ==> Live(endsAt, now))
      && (d.users[u].admin && d.users[u].active && (!admin || !active || (endsAt.Some? && endsAt != d.users[u].endsAt))
          ==> exists v, w :: v != w && v in ActiveAdmins(d, now) && w in ActiveAdmins(d, now))
    case IssueOp(j, u, client, _, checks) => j !in st.tokens && checks && ClientAccess(d, client, u, now)
    case CodeOp(i, u, client, checks) => i !in st.codeIds && checks && ClientAccess(d, client, u, now)
    case SpendOp(i) => i in st.codes && !st.codes[i].used
    case _ => true
  }

  lemma TwoOrMore<T>(s: set<T>)
    ensures |s| > 1 <==> exists v, w :: v != w && v in s && w in s
  {
    if |s| > 1 {
      var v :| v in s;
      assert |s - {v}| == |s| - 1;
      var w :| w in s - {v};
      assert v != w && v in s && w in s;
    }
    if v, w :| v != w && v in s && w in s {
      assert {v, w} <= s;
      assert |s| == |s - {v, w}| + |{v, w}|;
    }
  }

  lemma EditAcceptedIff(st: Store, u: UserId, admin: bool, active: bool, endsAt: Option<int>, revoke: bool, now: int)
    ensures EditUser(st, u, admin, active, endsAt, revoke, now).1.Ok? <==>
      Acceptable(st, Commit(UserOp(u, admin, active, endsAt, revoke), now))
  {
    TwoOrMore(ActiveAdmins(st.dir, now));
  }

  /** A commit is accepted exactly when the rows it finds allow it. */
  lemma AcceptedIff(st: Store, c: Commit)
    ensures Apply(st, c).1.Ok? <==> Acceptable(st, c)
  {
    match c.op
    case UserOp(u, admin, active, endsAt, revoke) => EditAcceptedIff(st, u, admin, active, endsAt, revoke, c.now);
    case _ =>
  }

  /** And one that is refused leaves no trace. */
  lemma RefusedChangesNothing(st: Store, c: Commit)
    requires !Apply(st, c).1.Ok?
    ensures Apply(st, c).0 == st
  {
  }

  /** An account edit ends the account's grants if it is asked to, or disables the account, and no others. */
  lemma UserEditEnds(st: Store, u: UserId, admin: bool, active: bool, endsAt: Option<int>, revoke: bool, now: int)
    requires EditUser(st, u, admin, active, endsAt, revoke, now).1.Ok?
    ensures var st' := EditUser(st, u, admin, active, endsAt, revoke, now).0;
      && st'.dir.users == st.dir.users[u := User(admin, active, endsAt)]
      && Leaves(st, st', (v: UserId, c: ClientId) => !(v == u && (revoke || (st.dir.users[u].active && !active))))
  {
    var st1 := st.(dir := st.dir.(users := st.dir.users[u := User(admin, active, endsAt)]));
    RevokeUsersLeaves(st1, {u});
  }

  /** An account item ends all the account's grants, or, for the last administrator, drops the end and ends none. */
  lemma EndItemEnds(st: Store, u: UserId, asAdmin: bool, now: int)
    requires u in st.dir.users
    ensures var st' := EndItem(st, u, asAdmin, now);
      var kept := asAdmin && forall v :: v in ActiveAdmins(st.dir, now) ==> v == u;
      && st'.dir.users == st.dir.users[u :=
           if kept then st.dir.users[u].(endsAt := None) else st.dir.users[u].(active := false)]
      && Leaves(st, st', (v: UserId, c: ClientId) => v == u ==> kept)
  {
    var row := st.dir.users[u].(active := false);
    RevokeUsersLeaves(st.(dir := st.dir.(users := st.dir.users[u := row])), {u});
    assert ActiveAdmins(st.dir, now) - {u} == {} <==> forall v :: v in ActiveAdmins(st.dir, now) ==> v == u by {
      if ActiveAdmins(st.dir, now) - {u} == {} {
        assert forall v :: v in ActiveAdmins(st.dir, now) && v != u ==> v in ActiveAdmins(st.dir, now) - {u};
      }
    }
  }

  /** Editing a client switches it, and ends its tokens if it is switched off or they are to be revoked. */
  lemma ClientEditEnds(st: Store, client: ClientId, enabled: bool, revoke: bool)
    ensures var st' := EditClient(st, client, enabled, revoke).0;
      && st'.codes == st.codes && st'.tokens.Keys == st.tokens.Keys
      && st'.dir == st.dir.(clients := st'.dir.clients) && st'.dir.clients.Keys == st.dir.clients.Keys
      && (forall k :: k in st.dir.clients ==> st'.dir.clients[k] == if k == client then enabled else st.dir.clients[k])
      && (forall j :: j in st.tokens ==>
            (LiveToken(st', j) <==> LiveToken(st, j) && !(st.tokens[j].client == client && (revoke || !enabled))))
  {
  }

  /** An accepted token is live, its user's and its client's, until its own end; nothing else is written. */
  lemma IssuedAsAsked(st: Store, j: Jti, u: UserId, client: ClientId, expiresAt: int, checks: bool, now: int)
    requires Issue(st, j, u, client, expiresAt, checks, now).1.Ok?
    ensures var st' := Issue(st, j, u, client, expiresAt, checks, now).0;
      && LiveToken(st', j) && st'.tokens[j].user == u && st'.tokens[j].client == client
      && st'.tokens[j].expiresAt == expiresAt
      && st'.tokens - {j} == st.tokens && st'.codes == st.codes && st'.dir == st.dir
  {
  }

  /** A code is stored unspent, can be spent once, and then no more; its id is never accepted again. */
  lemma CodeIsSpentOnce(st: Store, i: CodeId, u: UserId, client: ClientId, checks: bool, now: int)
    requires NewCode(st, i, u, client, checks, now).1.Ok? && CodesKnown(st)
    ensures var made := NewCode(st, i, u, client, checks, now).0;
      var (spent, r) := SpendCode(made, i);
      && r.Ok? && SpendCode(spent, i) == (spent, Denied)
      && i in spent.codes && spent.codes[i].user == u && spent.codes[i].client == client
      && spent.codes - {i} == st.codes && spent.tokens == st.tokens && spent.dir == st.dir
      && forall v, k, ok, t :: NewCode(spent, i, v, k, ok, t) == (spent, Denied)
  {
  }

  /** A pass closes exactly the pending requests whose time has run out. */
  lemma RequestsRunOut(st: Store, now: int)
    ensures var st' := FollowUp(st, now);
      && st'.requests.Keys == st.requests.Keys
      && forall r :: r in st.requests ==>
           && st'.requests[r].expiresAt == st.requests[r].expiresAt
           && (st'.requests[r].pending <==> st.requests[r].pending && now < st.requests[r].expiresAt)
  {
  }
}
