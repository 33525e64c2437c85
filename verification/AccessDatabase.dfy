/** The transactions as they run on stored rows. */
module AccessDatabase {
  import opened Optional
  import opened Directory
  import opened Grants
  import opened Expiry
  import opened AccessRuns
  import opened AccessLocality
  import opened RoleFollowUp
  import opened GrantEffects

  predicate AssignedAs(d: Directory, a: AppId, p: Principal, on: bool, until: Option<int>) {
    match p
    case AUser(u) => ((a, u) in d.direct <==> on) && (on ==> d.direct[(a, u)] == until)
    case AGroup(g) => (a, g) in d.granted <==> on
  }

  /** The one membership is as asked, and all the others as they were. */
  predicate MemberAs(d: Directory, d': Directory, g: GroupId, u: UserId, member: bool, until: Option<int>) {
    && ((g, u) in d'.members <==> member) && (member ==> d'.members[(g, u)] == until)
    && d'.members - {(g, u)} == d.members - {(g, u)}
  }

  /** What is left of everybody's grants after a change of the user's membership. */
  ghost predicate AfterMembership(st: Store, st': Store, g: GroupId, u: UserId, changed: bool, now: int) {
    Leaves(st, st', (v: UserId, c: ClientId) =>
      !(v in {u} && changed && EndedBy(st.dir, g, c)) && ClientAccess(st'.dir, c, v, now))
  }

  ghost predicate AfterDeletion(st: Store, st': Store, g: GroupId, now: int) {
    Leaves(st, st', (v: UserId, c: ClientId) =>
      !((g, v) in st.dir.members && EndedBy(st.dir, g, c)) && ClientAccess(st'.dir, c, v, now))
  }

  /** The group with its memberships, grants and role mappings is gone, and no other row of theirs. */
  ghost predicate Gone(d: Directory, d': Directory, g: GroupId) {
    && d'.groups == d.groups - {g} && d'.policed == d.policed - {g}
    && (forall p :: p in d'.members <==> p in d.members && p.0 != g)
    && (forall p :: p in d'.members ==> d'.members[p] == d.members[p])
    && (forall p :: p in d'.granted <==> p in d.granted && p.1 != g)
    && (forall p :: p in d'.roleGroups <==> p in d.roleGroups && p.1 != g)
  }

  lemma MembershipPromises(st: Store, g: GroupId, u: UserId, member: bool, until: Option<int>, admitted: bool, now: int)
    ensures var (st', r) := SetMembership(st, g, u, member, until, admitted, now);
      && (r.Ok? <==> Acceptable(st, Commit(MemberOp(g, u, member, until, admitted), now)))
      && (r.Ok? ==>
            && MemberAs(st.dir, st'.dir, g, u, member, until)
            && RoleRevisions(st.dir, st'.dir, g, MembershipChanges(st.dir, g, u, member, until))
            && AfterMembership(st, st', g, u, MembershipChanges(st.dir, g, u, member, until), now))
  {
    AcceptedIff(st, Commit(MemberOp(g, u, member, until, admitted), now));
    if SetMembership(st, g, u, member, until, admitted, now).1.Ok? {
      MembershipEffect(st, g, u, member, until, admitted, now);
      MembershipShape(st, g, u, member, until, admitted, now);
    }
  }

  lemma DeletionPromises(st: Store, g: GroupId, admitted: bool, now: int)
    ensures var (st', r) := DeleteGroup(st, g, admitted, now);
      && (r.Ok? ==>
            && Gone(st.dir, st'.dir, g) && AfterDeletion(st, st', g, now)
            && RoleRevisions(st.dir, st'.dir, g, exists u :: (g, u) in st.dir.members))
  {
    if DeleteGroup(st, g, admitted, now).1.Ok? {
      DeletionEffect(st, g, admitted, now);
      DeletionShape(st, g, admitted, now);
    }
  }

  /** The database, edited one transaction at a time. */
  class AccessStore {
    var st: Store

    constructor (initial: Store)
      ensures st == initial
    {
      st := initial;
    }

    method EditPolicy(a: AppId, mode: Mode, enabled: bool, revision: nat, now: int) returns (r: Outcome)
      modifies this
      ensures (st, r) == SetAppPolicy(old(st), a, mode, enabled, revision, now)
      ensures r.Ok? <==> a in old(st).dir.apps && old(st).dir.apps[a].revision == revision
      ensures r.Ok? ==>
        && a in st.dir.apps && st.dir.apps[a].mode == mode && st.dir.apps[a].enabled == enabled
        && st.dir.apps[a].revision == revision + 1 && AllHaveAccess(st, now)
      ensures !r.Ok? ==> st == old(st)
    {
      if SetAppPolicy(st, a, mode, enabled, revision, now).1.Ok? {
        FollowUpLeavesAccess(st, Commit(PolicyOp(a, mode, enabled, revision), now));
      }
      var tx := st;
      if a !in tx.dir.apps {
        return Missing;
      }
      var app := tx.dir.apps[a];
      if app.revision != revision {
        return Conflict;
      }
      app := app.(mode := mode, enabled := enabled, revision := app.revision + 1);
      tx := tx.(dir := tx.dir.(apps := tx.dir.apps[a := app]));
      tx := RevokeLost(tx, now);
      st, r := tx, Ok;
    }

    method EditAssignment(a: AppId, p: Principal, on: bool, until: Option<int>, now: int) returns (r: Outcome)
      modifies this
      ensures (st, r) == SetAssignment(old(st), a, p, on, until, now)
      ensures r.Ok? <==> Acceptable(old(st), Commit(AssignOp(a, p, on, until), now))
      ensures r.Ok? ==> AllHaveAccess(st, now) && AssignedAs(st.dir, a, p, on, until)
      ensures !r.Ok? ==> st == old(st)
    {
      AcceptedIff(st, Commit(AssignOp(a, p, on, until), now));
      if SetAssignment(st, a, p, on, until, now).1.Ok? {
        FollowUpLeavesAccess(st, Commit(AssignOp(a, p, on, until), now));
      }
      if until.Some? && p.AGroup? {
        return Conflict;
      }
      if on && !Live(until, now) {
        return InPast;
      }
      var tx := st;
      if a !in tx.dir.apps {
        return Missing;
      }
      var app := tx.dir.apps[a];
      tx := tx.(dir := tx.dir.(apps := tx.dir.apps[a := app.(revision := app.revision + 1)]));
      if !Exists(tx.dir, p) {
        return Missing;
      }
      tx := tx.(dir := Assign(tx.dir, a, p, on, until));
      tx := RevokeLost(tx, now);
      st, r := tx, Ok;
    }

    method EditMembership(g: GroupId, u: UserId, member: bool, until: Option<int>, admitted: bool, now: int)
        returns (r: Outcome)
      modifies this
      ensures (st, r) == SetMembership(old(st), g, u, member, until, admitted, now)
      ensures r.Ok? <==> Acceptable(old(st), Commit(MemberOp(g, u, member, until, admitted), now))
      ensures r.Ok? ==> MemberAs(old(st).dir, st.dir, g, u, member, until)
      ensures r.Ok? ==> RoleRevisions(old(st).dir, st.dir, g, MembershipChanges(old(st).dir, g, u, member, until))
      ensures r.Ok? ==> AfterMembership(old(st), st, g, u, MembershipChanges(old(st).dir, g, u, member, until), now)
      ensures !r.Ok? ==> st == old(st)
    {
      MembershipPromises(st, g, u, member, until, admitted, now);
      if member && !Live(until, now) {
        return InPast;
      }
      var tx := st;
      if g !in tx.dir.groups || u !in tx.dir.users {
        return Missing;
      }
      var changed;
      if member {
        changed := (g, u) !in tx.dir.members || tx.dir.members[(g, u)] != until;
        tx := tx.(dir := tx.dir.(members := tx.dir.members[(g, u) := until]));
      } else {
        changed := (g, u) in tx.dir.members;
        tx := tx.(dir := tx.dir.(members := tx.dir.members - {(g, u)}));
      }
      if changed && g in tx.dir.policed {
        if !admitted {
          return Refused;
        }
        tx := RevokeUsers(tx, {u});
      }
      if changed {
        tx := RoleChangeForApps(tx, MappedApps(tx.dir, g), {u});
      }
      tx := RevokeLost(tx, now);
      st, r := tx, Ok;
    }

    method RemoveGroup(g: GroupId, admitted: bool, now: int) returns (r: Outcome)
      modifies this
      ensures (st, r) == DeleteGroup(old(st), g, admitted, now)
      ensures r.Ok? <==> g in old(st).dir.groups && (g in old(st).dir.policed ==> admitted)
      ensures r.Ok? ==> Gone(old(st).dir, st.dir, g)
      ensures r.Ok? ==> RoleRevisions(old(st).dir, st.dir, g, exists u :: (g, u) in old(st).dir.members)
      ensures r.Ok? ==> AfterDeletion(old(st), st, g, now)
      ensures !r.Ok? ==> st == old(st)
    {
      DeletionPromises(st, g, admitted, now);
      var tx := st;
      if g !in tx.dir.groups {
        return Missing;
      }
      var members := MembersOf(tx.dir, g);
      if g in tx.dir.policed {
        tx := RevokeUsers(tx, members);
        if !admitted {
          return Refused;
        }
      }
      var apps := MappedApps(tx.dir, g);
      tx := tx.(dir := WithoutGroup(tx.dir, g));
      tx := RoleChangeForApps(tx, apps, members);
      tx := RevokeLost(tx, now);
      st, r := tx, Ok;
    }

    /** Each due item commits on its own; the rows come back in whatever order the database chooses. */
    method RunDueExpiries(now: int)
        returns (users: seq<UserId>, members: seq<(GroupId, UserId)>, grants: seq<(AppId, UserId)>)
      modifies this
      ensures DueLists(old(st).dir, users, members, grants, now)
      ensures st == Pass(old(st), users, members, grants, now)
    {
      ghost var start := st;
      users := Scan(DueUsers(st.dir, now));
      for i := 0 to |users|
        invariant EndAccounts(st, users[i..], now) == EndAccounts(start, users, now)
      {
        st := EndAccount(st, users[i], now);
        assert users[i..][0] == users[i] && users[i..][1..] == users[i + 1..];
      }
      ghost var ended := st;
      DueAfterAccounts(start, users, now);
      members := Scan(DueMembers(st.dir, now));
      for i := 0 to |members|
        invariant ExpireMembers(st, members[i..]) == ExpireMembers(ended, members)
      {
        var p := members[i];
        var tx := st.(dir := st.dir.(members := st.dir.members - {p}));
        tx := RoleChangeForApps(tx, MappedApps(tx.dir, p.0), {p.1});
        if p.0 in tx.dir.policed {
          tx := RevokeUsers(tx, {p.1});
        }
        st := tx;
        assert members[i..][0] == members[i] && members[i..][1..] == members[i + 1..];
      }
      ghost var left := st;
      ExpireMembersEffect(ended, members);
      grants := Scan(DueGrants(st.dir, now));
      for i := 0 to |grants|
        invariant ExpireGrants(st, grants[i..]) == ExpireGrants(left, grants)
      {
        st := ExpireGrant(st, grants[i]);
        assert grants[i..][0] == grants[i] && grants[i..][1..] == grants[i + 1..];
      }
      st := FollowUp(st, now);
    }
  }

  lemma DueAfterAccounts(st: Store, users: seq<UserId>, now: int)
    requires Lists(users, DueUsers(st.dir, now))
    ensures var d := EndAccounts(st, users, now).dir;
      DueMembers(d, now) == DueMembers(st.dir, now) && DueGrants(d, now) == DueGrants(st.dir, now)
  {
    ListsElements(users, DueUsers(st.dir, now));
    EndAccountsEffect(st, users, now);
  }

  /** A query's rows: every match once, in no promised order. */
  method Scan<T(==)>(matches: set<T>) returns (rows: seq<T>)
    ensures Lists(rows, matches)
  {
    rows := [];
    var todo := matches;
    while todo != {}
      invariant todo <= matches
      invariant Distinct(rows)
      invariant forall x :: x in rows <==> x in matches && x !in todo
    {
      var x :| x in todo;
      rows, todo := rows + [x], todo - {x};
    }
  }
}
