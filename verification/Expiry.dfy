/** The follow-up pass over everything whose instant has passed. */
module Expiry {
  import opened Optional
  import opened Directory
  import opened Grants

  function DueUsers(d: Directory, now: int): set<UserId> {
    set u | u in d.users && d.users[u].active && !Live(d.users[u].endsAt, now)
  }

  function DueMembers(d: Directory, now: int): set<(GroupId, UserId)> {
    set p | p in d.members && !Live(d.members[p], now)
  }

  function DueGrants(d: Directory, now: int): set<(AppId, UserId)> {
    set p | p in d.direct && !Live(d.direct[p], now)
  }

  /** `rows` lists `s`, each element once, in any order. */
  predicate Lists<T(==)>(rows: seq<T>, s: set<T>) {
    && (forall x :: x in s ==> x in rows)
    && (forall i :: 0 <= i < |rows| ==> rows[i] in s)
    && Distinct(rows)
  }

  // ---- the three loops, item by item ----------------------------------------------------------------

  /**
   Ends one account, or keeps it by dropping its end date when no other administrator could act. Whether
   the account is an administrator's is what it was when the pass found it.
   */
  function EndItem(st: Store, u: UserId, asAdmin: bool, now: int): Store {
    if u !in st.dir.users then st else
    var user := st.dir.users[u];
    if asAdmin && ActiveAdmins(st.dir, now) - {u} == {} then
      st.(dir := st.dir.(users := st.dir.users[u := user.(endsAt := None)]))
    else
      RevokeUsers(st.(dir := st.dir.(users := st.dir.users[u := user.(active := false)])), {u})
  }

  function EndAccount(st: Store, u: UserId, now: int): Store {
    if u !in st.dir.users then st else EndItem(st, u, st.dir.users[u].admin, now)
  }

  function EndAccounts(st: Store, order: seq<UserId>, now: int): Store
    decreases |order|
  {
    if order == [] then st else EndAccounts(EndAccount(st, order[0], now), order[1..], now)
  }

  function ExpireMember(st: Store, p: (GroupId, UserId)): Store {
    var st1 := st.(dir := st.dir.(members := st.dir.members - {p}));
    var st2 := RoleChange(st1, MappedApps(st1.dir, p.0), {p.1});
    if p.0 in st.dir.policed then RevokeUsers(st2, {p.1}) else st2
  }

  function ExpireMembers(st: Store, order: seq<(GroupId, UserId)>): Store
    decreases |order|
  {
    if order == [] then st else ExpireMembers(ExpireMember(st, order[0]), order[1..])
  }

  function BumpApp(apps: map<AppId, App>, a: AppId): map<AppId, App> {
    if a in apps then apps[a := apps[a].(revision := apps[a].revision + 1)] else apps
  }

  function ExpireGrant(st: Store, p: (AppId, UserId)): Store {
    st.(dir := st.dir.(direct := st.dir.direct - {p}, apps := BumpApp(st.dir.apps, p.0)))
  }

  function ExpireGrants(st: Store, order: seq<(AppId, UserId)>): Store
    decreases |order|
  {
    if order == [] then st else ExpireGrants(ExpireGrant(st, order[0]), order[1..])
  }

  function FollowUp(st: Store, now: int): Store {
    RevokeLost(st.(requests := map r | r in st.requests ::
      if st.requests[r].pending && st.requests[r].expiresAt <= now then st.requests[r].(pending := false)
        else st.requests[r]), now)
  }

  function Pass(st: Store, users: seq<UserId>, members: seq<(GroupId, UserId)>, grants: seq<(AppId, UserId)>,
      now: int): Store {
    FollowUp(ExpireGrants(ExpireMembers(EndAccounts(st, users, now), members), grants), now)
  }

  // ---- what the loops amount to ---------------------------------------------------------------------

  function FirstAdmin(users: map<UserId, User>, order: seq<UserId>): Option<UserId> {
    if order == [] then None
    else if order[0] in users && users[order[0]].admin then Some(order[0])
    else FirstAdmin(users, order[1..])
  }

  /** The one account the pass keeps: the first administrator it meets, when none could act before. */
  function Kept(d: Directory, order: seq<UserId>, now: int): Option<UserId> {
    if ActiveAdmins(d, now) != {} then None else FirstAdmin(d.users, order)
  }

  function EndedUsers(users: map<UserId, User>, order: seq<UserId>, kept: Option<UserId>): map<UserId, User> {
    map u | u in users ::
      if u !in order then users[u]
      else if kept == Some(u) then users[u].(endsAt := None)
      else users[u].(active := false)
  }

  lemma {:induction false} FirstAdminFrame(users: map<UserId, User>, users': map<UserId, User>, order: seq<UserId>)
    requires forall u :: u in order ==>
      (u in users <==> u in users') && (u in users ==> users[u].admin == users'[u].admin)
    ensures FirstAdmin(users, order) == FirstAdmin(users', order)
  {
    if order != [] {
      FirstAdminFrame(users, users', order[1..]);
    }
  }

  lemma {:induction false} FirstAdminIn(users: map<UserId, User>, order: seq<UserId>)
    ensures match FirstAdmin(users, order)
      case Some(u) => u in order && u in users && users[u].admin
      case None => forall u :: u in order && u in users ==> !users[u].admin
  {
    if order != [] {
      FirstAdminIn(users, order[1..]);
    }
  }

  predicate Distinct<T(==)>(rows: seq<T>) {
    forall i, j :: 0 <= i < j < |rows| ==> rows[i] != rows[j]
  }

  /** Whatever the order: every due account is disabled, except at most one administrator. */
  lemma {:induction false} EndAccountsEffect(st: Store, order: seq<UserId>, now: int)
    requires Distinct(order) && forall u :: u in order ==> u in DueUsers(st.dir, now)
    ensures EndAccounts(st, order, now).dir
      == st.dir.(users := EndedUsers(st.dir.users, order, Kept(st.dir, order, now)))
    ensures EndAccounts(st, order, now).requests == st.requests
    decreases |order|
  {
    if order == [] {
      assert EndedUsers(st.dir.users, [], Kept(st.dir, order, now)) == st.dir.users;
    } else {
      var u, rest := order[0], order[1..];
      var st1 := EndAccount(st, u, now);
      assert u in order && forall v :: v in rest ==> v in order && v != u;
      EndAccountEffect(st, u, now);
      EndAccountsEffect(st1, rest, now);
      EndedUsersStep(st.dir, st1.dir, order, now);
    }
  }

  lemma EndedUsersStep(d: Directory, d': Directory, order: seq<UserId>, now: int)
    requires order != [] && Distinct(order) && order[0] in DueUsers(d, now)
    requires var u := order[0]; var refuse := d.users[u].admin && ActiveAdmins(d, now) == {};
      && d' == d.(users := d.users[u := if refuse then d.users[u].(endsAt := None) else d.users[u].(active := false)])
      && ActiveAdmins(d', now) == if refuse then {u} else ActiveAdmins(d, now)
    ensures EndedUsers(d'.users, order[1..], Kept(d', order[1..], now))
      == EndedUsers(d.users, order, Kept(d, order, now))
  {
    var u, rest := order[0], order[1..];
    assert u !in rest;
    assert forall v :: v in order <==> v == u || v in rest;
    FirstAdminFrame(d.users, d'.users, rest);
    FirstAdminIn(d.users, rest);
  }

  lemma EndAccountEffect(st: Store, u: UserId, now: int)
    requires u in DueUsers(st.dir, now)
    ensures var d, d' := st.dir, EndAccount(st, u, now).dir;
      var refuse := d.users[u].admin && ActiveAdmins(d, now) == {};
      && d' == d.(users := d.users[u := if refuse then d.users[u].(endsAt := None) else d.users[u].(active := false)])
      && ActiveAdmins(d', now) == if refuse then {u} else ActiveAdmins(d, now)
  {
    assert u !in ActiveAdmins(st.dir, now);
    assert ActiveAdmins(st.dir, now) - {u} == ActiveAdmins(st.dir, now);
    var d' := EndAccount(st, u, now).dir;
    assert forall v :: v != u && v in st.dir.users ==> (v in ActiveAdmins(d', now) <==> v in ActiveAdmins(st.dir, now));
  }

  predicate SameApps(x: map<AppId, App>, y: map<AppId, App>) {
    && x.Keys == y.Keys
    && forall a :: a in x ==> y[a] == x[a].(revision := y[a].revision, roleRevision := y[a].roleRevision)
  }

  function Elements<T(==)>(rows: seq<T>): set<T> {
    set i | 0 <= i < |rows| :: rows[i]
  }

  lemma RoleChangeEffect(st: Store, apps: set<AppId>, users: set<UserId>)
    ensures var st' := RoleChange(st, apps, users);
      SameApps(st.dir.apps, st'.dir.apps) && st'.requests == st.requests && st'.dir == st.dir.(apps := st'.dir.apps)
  {
  }

  lemma ExpireMemberEffect(st: Store, p: (GroupId, UserId))
    ensures var st' := ExpireMember(st, p);
      && SameApps(st.dir.apps, st'.dir.apps) && st'.requests == st.requests
      && st'.dir == st.dir.(members := st.dir.members - {p}, apps := st'.dir.apps)
  {
    var st1 := st.(dir := st.dir.(members := st.dir.members - {p}));
    RoleChangeEffect(st1, MappedApps(st1.dir, p.0), {p.1});
  }

  lemma ElementsStep<T>(rows: seq<T>)
    requires rows != []
    ensures Elements(rows) == {rows[0]} + Elements(rows[1..])
  {
    assert rows == [rows[0]] + rows[1..];
    forall x | x in Elements(rows) ensures x in {rows[0]} + Elements(rows[1..]) {
      var i :| 0 <= i < |rows| && rows[i] == x;
      assert i > 0 ==> rows[1..][i - 1] == x;
    }
  }

  lemma {:induction false} ExpireMembersEffect(st: Store, order: seq<(GroupId, UserId)>)
    ensures var st' := ExpireMembers(st, order);
      && SameApps(st.dir.apps, st'.dir.apps) && st'.requests == st.requests
      && st'.dir == st.dir.(members := st.dir.members - Elements(order), apps := st'.dir.apps)
    decreases |order|
  {
    if order != [] {
      var st1 := ExpireMember(st, order[0]);
      ExpireMemberEffect(st, order[0]);
      ExpireMembersEffect(st1, order[1..]);
      ElementsStep(order);
      assert st.dir.members - {order[0]} - Elements(order[1..]) == st.dir.members - Elements(order);
    }
  }

  lemma {:induction false} ExpireGrantsEffect(st: Store, order: seq<(AppId, UserId)>)
    ensures var st' := ExpireGrants(st, order);
      && SameApps(st.dir.apps, st'.dir.apps) && st'.requests == st.requests
      && st'.dir == st.dir.(direct := st.dir.direct - Elements(order), apps := st'.dir.apps)
    decreases |order|
  {
    if order != [] {
      ExpireGrantsEffect(ExpireGrant(st, order[0]), order[1..]);
      ElementsStep(order);
      assert st.dir.direct - {order[0]} - Elements(order[1..]) == st.dir.direct - Elements(order);
    }
  }

  /** The directory with everything that has passed taken out of it. */
  ghost predicate Swept(d: Directory, d': Directory, order: seq<UserId>, now: int) {
    && SameApps(d.apps, d'.apps)
    && d' == d.(users := EndedUsers(d.users, order, Kept(d, order, now)),
                members := d.members - DueMembers(d, now),
                direct := d.direct - DueGrants(d, now),
                apps := d'.apps)
  }

  predicate DueLists(d: Directory, users: seq<UserId>, members: seq<(GroupId, UserId)>, grants: seq<(AppId, UserId)>,
      now: int) {
    Lists(users, DueUsers(d, now)) && Lists(members, DueMembers(d, now)) && Lists(grants, DueGrants(d, now))
  }

  lemma ListsElements<T>(rows: seq<T>, s: set<T>)
    requires Lists(rows, s)
    ensures Elements(rows) == s && forall x :: x in rows <==> x in s
  {
  }

  lemma PassEffect(st: Store, users: seq<UserId>, members: seq<(GroupId, UserId)>, grants: seq<(AppId, UserId)>,
      now: int)
    requires DueLists(st.dir, users, members, grants, now)
    ensures Swept(st.dir, Pass(st, users, members, grants, now).dir, users, now)
  {
    ListsElements(users, DueUsers(st.dir, now));
    ListsElements(members, DueMembers(st.dir, now));
    ListsElements(grants, DueGrants(st.dir, now));
    EndAccountsEffect(st, users, now);
    var st1 := EndAccounts(st, users, now);
    ExpireMembersEffect(st1, members);
    ExpireGrantsEffect(ExpireMembers(st1, members), grants);
  }

  // ---- main results ---------------------------------------------------------------------------------

  lemma SweptKeepsMembership(d: Directory, d': Directory, order: seq<UserId>, now: int, g: GroupId, u: UserId, t: int)
    requires Swept(d, d', order, now) && now <= t
    ensures LiveMember(d', g, u, t) <==> LiveMember(d, g, u, t)
  {
  }

  lemma SweptKeepsActive(d: Directory, d': Directory, order: seq<UserId>, now: int, u: UserId, t: int)
    requires Swept(d, d', order, now) && Lists(order, DueUsers(d, now)) && now <= t && Kept(d, order, now) != Some(u)
    ensures u in d.users <==> u in d'.users
    ensures u in d.users ==> d'.users[u].endsAt == d.users[u].endsAt
    ensures Active(d', u, t) <==> Active(d, u, t)
  {
    ListsElements(order, DueUsers(d, now));
  }

  lemma SweptKeepsGrants(d: Directory, d': Directory, order: seq<UserId>, now: int, a: AppId, u: UserId, t: int)
    requires Swept(d, d', order, now) && now <= t
    ensures DirectGrant(d', a, u, t) <==> DirectGrant(d, a, u, t)
    ensures GroupGrant(d', a, u, t) <==> GroupGrant(d, a, u, t)
    ensures forall until :: Live(until, t) ==> (GrantRow(d', a, u, until) <==> GrantRow(d, a, u, until))
  {
    forall p | p in d.granted ensures LiveMember(d', p.1, u, t) <==> LiveMember(d, p.1, u, t) {
      SweptKeepsMembership(d, d', order, now, p.1, u, t);
    }
  }

  /**
   A failure-free pass decides nothing: for every app, every later instant and every user but a
   last administrator it kept, access, the role set and the end of access are what they were.
   */
  lemma PassKeepsVerdicts(st: Store, users: seq<UserId>, members: seq<(GroupId, UserId)>, grants: seq<(AppId, UserId)>,
      now: int,
                          a: AppId, u: UserId, t: int)
    requires DueLists(st.dir, users, members, grants, now)
    requires now <= t && Kept(st.dir, users, now) != Some(u)
    ensures var d, d' := st.dir, Pass(st, users, members, grants, now).dir;
      && (Access(d', a, u, t) <==> Access(d, a, u, t))
      && RolesOf(d', a, u, t) == RolesOf(d, a, u, t)
      && (a in d.apps && u in d.users ==>
            a in d'.apps && u in d'.users && forall end :: EndsAt(d', a, u, t, end) <==> EndsAt(d, a, u, t, end))
  {
    PassEffect(st, users, members, grants, now);
    var d, d' := st.dir, Pass(st, users, members, grants, now).dir;
    SweptKeepsActive(d, d', users, now, u, t);
    SweptKeepsGrants(d, d', users, now, a, u, t);
    SweptKeepsRoles(d, d', users, now, a, u, t);
    if a in d.apps && u in d.users {
      SweptKeepsEnd(d, d', users, now, a, u, t);
    }
  }

  lemma SweptKeepsRoles(d: Directory, d': Directory, order: seq<UserId>, now: int, a: AppId, u: UserId, t: int)
    requires Swept(d, d', order, now) && now <= t
    ensures RolesOf(d', a, u, t) == RolesOf(d, a, u, t)
  {
    forall g ensures LiveMember(d', g, u, t) <==> LiveMember(d, g, u, t) {
      SweptKeepsMembership(d, d', order, now, g, u, t);
    }
    assert forall r :: HoldsRole(d', r, u, t) <==> HoldsRole(d, r, u, t);
  }

  lemma SweptKeepsEnd(d: Directory, d': Directory, order: seq<UserId>, now: int, a: AppId, u: UserId, t: int)
    requires Swept(d, d', order, now) && Lists(order, DueUsers(d, now)) && now <= t && Kept(d, order, now) != Some(u)
    requires a in d.apps && u in d.users
    ensures a in d'.apps && u in d'.users && forall end :: EndsAt(d', a, u, t, end) <==> EndsAt(d, a, u, t, end)
  {
    SweptKeepsActive(d, d', order, now, u, t);
    SweptKeepsGrants(d, d', order, now, a, u, t);
    forall end ensures EndsAt(d', a, u, t, end) <==> EndsAt(d, a, u, t, end) {
      SameLiveRowsSameEnd(d, d', a, u, t, end);
      SameLiveRowsSameEnd(d', d, a, u, t, end);
    }
  }

  /** The end of access only reads the rows still live. */
  lemma SameLiveRowsSameEnd(d: Directory, d': Directory, a: AppId, u: UserId, t: int, end: Option<int>)
    requires a in d.apps && u in d.users && a in d'.apps && u in d'.users
    requires d'.apps[a].mode == d.apps[a].mode && d'.users[u].endsAt == d.users[u].endsAt
    requires HasGrant(d', a, u, t) <==> HasGrant(d, a, u, t)
    requires forall until :: Live(until, t) ==> (GrantRow(d', a, u, until) <==> GrantRow(d, a, u, until))
    ensures EndsAt(d, a, u, t, end) ==> EndsAt(d', a, u, t, end)
  {
    assert Live(None, t);
    if EndsAt(d, a, u, t, end) && d.apps[a].mode.AssignedOnly? && !GrantRow(d, a, u, None) && HasGrant(d, a, u, t) {
      var account := d.users[u].endsAt;
      var latest :| GrantRow(d, a, u, Some(latest)) && t < latest
        && (forall e :: GrantRow(d, a, u, Some(e)) ==> e <= latest)
        && end == if account.None? || latest < account.value then Some(latest) else account;
      SameLatestRow(d, d', a, u, t, latest);
    }
  }

  lemma SameLatestRow(d: Directory, d': Directory, a: AppId, u: UserId, t: int, latest: int)
    requires forall until :: Live(until, t) ==> (GrantRow(d', a, u, until) <==> GrantRow(d, a, u, until))
    requires GrantRow(d, a, u, Some(latest)) && t < latest && forall e :: GrantRow(d, a, u, Some(e)) ==> e <= latest
    ensures GrantRow(d', a, u, Some(latest)) && forall e :: GrantRow(d', a, u, Some(e)) ==> e <= latest
  {
    assert Live(Some(latest), t);
    forall e | GrantRow(d', a, u, Some(e)) ensures e <= latest {
      assert t < e ==> Live(Some(e), t);
    }
  }

  lemma SweptHasNothingDue(d: Directory, d': Directory, order: seq<UserId>, now: int)
    requires Swept(d, d', order, now) && Lists(order, DueUsers(d, now))
    ensures DueUsers(d', now) == {} && DueMembers(d', now) == {} && DueGrants(d', now) == {}
  {
    ListsElements(order, DueUsers(d, now));
  }

  /** After a pass no membership, grant or active account is left whose end has come. */
  lemma PassLeavesNothingPast(st: Store, users: seq<UserId>, members: seq<(GroupId, UserId)>,
      grants: seq<(AppId, UserId)>, now: int)
    requires DueLists(st.dir, users, members, grants, now)
    ensures var d' := Pass(st, users, members, grants, now).dir;
      && (forall p :: p in d'.members ==> d'.members[p].None? || now < d'.members[p].value)
      && (forall p :: p in d'.direct ==> d'.direct[p].None? || now < d'.direct[p].value)
      && (forall u :: u in d'.users && d'.users[u].active ==>
         d'.users[u].endsAt.None? || now < d'.users[u].endsAt.value)
  {
    PassEffect(st, users, members, grants, now);
    var d' := Pass(st, users, members, grants, now).dir;
    SweptHasNothingDue(st.dir, d', users, now);
    assert forall p :: p in d'.members ==> p !in DueMembers(d', now);
    assert forall p :: p in d'.direct ==> p !in DueGrants(d', now);
    assert forall u :: u in d'.users ==> u !in DueUsers(d', now);
  }

  /** A second pass at the same instant finds nothing due and changes no row, token, code or request. */
  lemma SecondPassIsIdle(st: Store, users: seq<UserId>, members: seq<(GroupId, UserId)>, grants: seq<(AppId, UserId)>,
      now: int)
    requires DueLists(st.dir, users, members, grants, now)
    ensures var st' := Pass(st, users, members, grants, now);
      && DueUsers(st'.dir, now) == {} && DueMembers(st'.dir, now) == {} && DueGrants(st'.dir, now) == {}
      && DueLists(st'.dir, [], [], [], now)
      && Pass(st', [], [], [], now) == st'
  {
    PassEffect(st, users, members, grants, now);
    var before := ExpireGrants(ExpireMembers(EndAccounts(st, users, now), members), grants);
    var st' := Pass(st, users, members, grants, now);
    SweptHasNothingDue(st.dir, st'.dir, users, now);
    assert st' == FollowUp(before, now);
    FollowUpTwice(before, now);
  }

  lemma FollowUpTwice(st: Store, now: int)
    ensures FollowUp(FollowUp(st, now), now) == FollowUp(st, now)
  {
    var one := FollowUp(st, now);
    assert FollowUp(one, now).tokens == one.tokens;
    assert FollowUp(one, now).codes == one.codes;
    assert FollowUp(one, now).requests == one.requests;
  }

  /** `k`, an ended administrator, is kept and can act; every other ended account is disabled. */
  predicate OnlyKept(d: Directory, d': Directory, k: UserId, now: int) {
    && k in DueUsers(d, now) && d.users[k].admin && ActiveAdmins(d', now) == {k}
    && k in d'.users && d'.users[k] == d.users[k].(endsAt := None)
    && forall u :: u in DueUsers(d, now) && u != k ==> u in d'.users && !d'.users[u].active
  }

  /**
   The directory never loses its last administrator to the calendar. If some administrator row was
   active, one with no passed end date exists afterwards; the pass keeps nobody past their end when
   such an administrator existed, and exactly one administrator when all had ended.
   */
  lemma AnAdministratorRemains(st: Store, users: seq<UserId>, members: seq<(GroupId, UserId)>,
      grants: seq<(AppId, UserId)>, now: int)
    requires DueLists(st.dir, users, members, grants, now)
    requires exists u :: u in st.dir.users && st.dir.users[u].admin && st.dir.users[u].active
    ensures var d, d' := st.dir, Pass(st, users, members, grants, now).dir;
      && ActiveAdmins(d', now) != {}
      && (ActiveAdmins(d, now) != {} ==>
            ActiveAdmins(d', now) == ActiveAdmins(d, now) && forall u :: u in DueUsers(d, now) ==>
              u in d'.users && !d'.users[u].active)
      && (ActiveAdmins(d, now) == {} ==>
            exists k :: k in d.users && OnlyKept(d, d', k, now))
  {
    PassEffect(st, users, members, grants, now);
    var d, d' := st.dir, Pass(st, users, members, grants, now).dir;
    var u :| u in d.users && d.users[u].admin && d.users[u].active;
    if ActiveAdmins(d, now) == {} {
      assert u !in ActiveAdmins(d, now);
      OneIsKept(d, d', users, now, u);
    } else {
      NoneIsKept(d, d', users, now);
    }
  }

  lemma NoneIsKept(d: Directory, d': Directory, order: seq<UserId>, now: int)
    requires Swept(d, d', order, now) && Lists(order, DueUsers(d, now)) && ActiveAdmins(d, now) != {}
    ensures ActiveAdmins(d', now) == ActiveAdmins(d, now)
    ensures forall u :: u in DueUsers(d, now) ==> u in d'.users && !d'.users[u].active
  {
    ListsElements(order, DueUsers(d, now));
    forall u ensures u in ActiveAdmins(d', now) <==> u in ActiveAdmins(d, now) {
      SweptKeepsActive(d, d', order, now, u, now);
    }
  }

  lemma OneIsKept(d: Directory, d': Directory, order: seq<UserId>, now: int, someAdmin: UserId)
    requires Swept(d, d', order, now) && Lists(order, DueUsers(d, now)) && ActiveAdmins(d, now) == {}
    requires someAdmin in DueUsers(d, now) && d.users[someAdmin].admin
    ensures exists k :: k in d.users && OnlyKept(d, d', k, now)
  {
    ListsElements(order, DueUsers(d, now));
    FirstAdminIn(d.users, order);
    var k := FirstAdmin(d.users, order).value;
    forall u | u != k ensures u !in ActiveAdmins(d', now) {
      assert u !in ActiveAdmins(d, now);
      SweptKeepsActive(d, d', order, now, u, now);
    }
    assert ActiveAdmins(d', now) == {k};
    assert OnlyKept(d, d', k, now);
  }
}
