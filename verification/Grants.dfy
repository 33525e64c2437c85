/**
 Tokens and authorization codes, the follow-up that revokes what lost its source, and the
 transactions that edit access. A transaction works on a copy and commits it, or changes nothing.
 */
module Grants {
  import opened Optional
  import opened Directory

  type Jti = string
  type CodeId = string

  datatype Token = Token(user: UserId, client: ClientId, expiresAt: int, revoked: bool)
  datatype Code = Code(user: UserId, client: ClientId, used: bool)
  datatype Request = Request(pending: bool, expiresAt: int)

  /** `codeIds` remembers every code id ever stored; ids are random and never repeat. */
  datatype Store = Store(
    dir: Directory,
    tokens: map<Jti, Token>,
    codes: map<CodeId, Code>,
    codeIds: set<CodeId>,
    requests: map<string, Request>)

  datatype Outcome = Ok | Missing | Conflict | InPast | Refused | LastAdministrator | Denied

  // ---- revocation statements ------------------------------------------------------------------------

  function RevokeTokens(tokens: map<Jti, Token>, dead: set<Jti>): map<Jti, Token> {
    map j | j in tokens :: if j in dead then tokens[j].(revoked := true) else tokens[j]
  }

  /** Every grant without effective access right now ends. */
  function RevokeLost(st: Store, now: int): Store {
    st.(tokens := RevokeTokens(st.tokens, set j | j in st.tokens
      && !ClientAccess(st.dir, st.tokens[j].client, st.tokens[j].user, now)),
        codes := map i | i in st.codes && ClientAccess(st.dir, st.codes[i].client, st.codes[i].user, now) ::
          st.codes[i])
  }

  function RevokeUsers(st: Store, users: set<UserId>): Store {
    st.(tokens := RevokeTokens(st.tokens, set j | j in st.tokens && st.tokens[j].user in users),
        codes := map i | i in st.codes && st.codes[i].user !in users :: st.codes[i])
  }

  function RevokeAt(st: Store, users: set<UserId>, clients: set<ClientId>): Store {
    st.(tokens := RevokeTokens(st.tokens, set j | j in st.tokens && st.tokens[j].user in users
      && st.tokens[j].client in clients),
        codes := map i | i in st.codes && !(st.codes[i].user in users && st.codes[i].client in clients) :: st.codes[i])
  }

  // ---- role follow-up -------------------------------------------------------------------------------

  function ClientsOf(d: Directory, apps: set<AppId>): set<ClientId> {
    set a | a in apps && a in d.apps && d.apps[a].client.Some? :: d.apps[a].client.value
  }

  function BumpRoles(apps: map<AppId, App>, changed: set<AppId>): map<AppId, App> {
    map a | a in apps :: if a in changed
      then apps[a].(revision := apps[a].revision + 1, roleRevision := apps[a].roleRevision + 1) else apps[a]
  }

  /** A changed role mapping bumps the apps' role revisions and ends the affected users' grants there. */
  function RoleChange(st: Store, apps: set<AppId>, users: set<UserId>): Store {
    if users == {} then st
    else RevokeAt(st, users, ClientsOf(st.dir, apps)).(dir := st.dir.(apps := BumpRoles(st.dir.apps, apps)))
  }

  function MappedApps(d: Directory, g: GroupId): set<AppId> {
    set r | r in d.roles && (r, g) in d.roleGroups :: d.roles[r]
  }

  /** One app's follow-up: the revisions, then one user after another. */
  function RoleChangeAt(st: Store, a: AppId, users: set<UserId>): Store {
    RevokeAt(st, users, ClientsOf(st.dir, {a})).(dir := st.dir.(apps := BumpRoles(st.dir.apps, {a})))
  }

  method RoleChangeTx(st: Store, a: AppId, users: set<UserId>) returns (tx: Store)
    ensures tx == RoleChangeAt(st, a, users)
  {
    tx := st.(dir := st.dir.(apps := BumpRoles(st.dir.apps, {a})));
    if a !in st.dir.apps || st.dir.apps[a].client.None? {
      assert ClientsOf(st.dir, {a}) == {};
      RevokeNothing(tx, users, {});
      return;
    }
    var client := st.dir.apps[a].client.value;
    assert ClientsOf(st.dir, {a}) == {client};
    ghost var bumped := tx;
    var left := users;
    ghost var done: set<UserId> := {};
    RevokeNothing(tx, done, {client});
    while left != {}
      invariant done + left == users && done !! left
      invariant tx == RevokeAt(bumped, done, {client})
    {
      var u :| u in left;
      tx := RevokeAt(tx, {u}, {client});
      RevokeSum(bumped, done, {u}, {client});
      done, left := done + {u}, left - {u};
    }
  }

  method RoleChangeForApps(st: Store, apps: set<AppId>, users: set<UserId>) returns (tx: Store)
    ensures tx == RoleChange(st, apps, users)
  {
    tx := st;
    if users == {} {
      return;
    }
    var todo := apps;
    ghost var done: set<AppId> := {};
    RoleChangeNowhere(st, users);
    while todo != {}
      invariant done + todo == apps && done !! todo
      invariant tx == RoleChange(st, done, users)
    {
      var a :| a in todo;
      RoleChangeOneMore(st, done, a, users);
      tx := RoleChangeTx(tx, a, users);
      done, todo := done + {a}, todo - {a};
    }
    assert done == apps;
  }

  lemma RoleChangeNowhere(st: Store, users: set<UserId>)
    ensures RoleChange(st, {}, users) == st
  {
    assert ClientsOf(st.dir, {}) == {};
    RevokeNothing(st, users, {});
    assert BumpRoles(st.dir.apps, {}) == st.dir.apps;
  }

  lemma RevokeNothing(st: Store, users: set<UserId>, clients: set<ClientId>)
    requires users == {} || clients == {}
    ensures RevokeAt(st, users, clients) == st
  {
    assert RevokeAt(st, users, clients).tokens == st.tokens;
    assert RevokeAt(st, users, clients).codes == st.codes;
  }

  /** Revoking in two statements touches what either selects. */
  lemma RevokeTwice(st: Store, us: set<UserId>, cs: set<ClientId>, vs: set<UserId>, ds: set<ClientId>)
    ensures var two := RevokeAt(RevokeAt(st, us, cs), vs, ds);
      && two.dir == st.dir && two.codeIds == st.codeIds && two.requests == st.requests
      && two.tokens == RevokeTokens(st.tokens, set j | j in st.tokens &&
           ((st.tokens[j].user in us && st.tokens[j].client in cs)
             || (st.tokens[j].user in vs && st.tokens[j].client in ds)))
      && two.codes == map i | i in st.codes && !(st.codes[i].user in us && st.codes[i].client in cs)
                              && !(st.codes[i].user in vs && st.codes[i].client in ds) :: st.codes[i]
  {
  }

  lemma RevokeSum(st: Store, us: set<UserId>, vs: set<UserId>, cs: set<ClientId>)
    ensures RevokeAt(RevokeAt(st, us, cs), vs, cs) == RevokeAt(st, us + vs, cs)
  {
    RevokeTwice(st, us, cs, vs, cs);
    assert RevokeAt(RevokeAt(st, us, cs), vs, cs).tokens == RevokeAt(st, us + vs, cs).tokens;
    assert RevokeAt(RevokeAt(st, us, cs), vs, cs).codes == RevokeAt(st, us + vs, cs).codes;
  }

  lemma RevokeSumClients(st: Store, us: set<UserId>, cs: set<ClientId>, ds: set<ClientId>)
    ensures RevokeAt(RevokeAt(st, us, cs), us, ds) == RevokeAt(st, us, cs + ds)
  {
    RevokeTwice(st, us, cs, us, ds);
    assert RevokeAt(RevokeAt(st, us, cs), us, ds).tokens == RevokeAt(st, us, cs + ds).tokens;
    assert RevokeAt(RevokeAt(st, us, cs), us, ds).codes == RevokeAt(st, us, cs + ds).codes;
  }

  lemma RoleChangeOneMore(st: Store, done: set<AppId>, a: AppId, users: set<UserId>)
    requires users != {} && a !in done
    ensures RoleChangeAt(RoleChange(st, done, users), a, users) == RoleChange(st, done + {a}, users)
  {
    var mid := RoleChange(st, done, users);
    assert ClientsOf(mid.dir, {a}) == ClientsOf(st.dir, {a});
    assert ClientsOf(st.dir, done + {a}) == ClientsOf(st.dir, done) + ClientsOf(st.dir, {a});
    RevokeSumClients(st, users, ClientsOf(st.dir, done), ClientsOf(st.dir, {a}));
    assert BumpRoles(mid.dir.apps, {a}) == BumpRoles(st.dir.apps, done + {a});
    assert RevokeAt(mid, users, ClientsOf(st.dir, {a})).tokens
      == RevokeAt(RevokeAt(st, users, ClientsOf(st.dir, done)), users, ClientsOf(st.dir, {a})).tokens;
  }

  // ---- transactions ---------------------------------------------------------------------------------

  datatype Principal = AUser(user: UserId) | AGroup(group: GroupId)

  function SetAppPolicy(st: Store, a: AppId, mode: Mode, enabled: bool, revision: nat, now: int): (Store, Outcome) {
    if a !in st.dir.apps then (st, Missing)
    else if st.dir.apps[a].revision != revision then (st, Conflict)
    else
      var app := st.dir.apps[a].(mode := mode, enabled := enabled, revision := revision + 1);
      (RevokeLost(st.(dir := st.dir.(apps := st.dir.apps[a := app])), now), Ok)
  }

  predicate Exists(d: Directory, p: Principal) {
    match p
    case AUser(u) => u in d.users
    case AGroup(g) => g in d.groups
  }

  function Assign(d: Directory, a: AppId, p: Principal, on: bool, until: Option<int>): Directory {
    match p
    case AUser(u) => d.(direct := if on then d.direct[(a, u) := until] else d.direct - {(a, u)})
    case AGroup(g) => d.(granted := if on then d.granted + {(a, g)} else d.granted - {(a, g)})
  }

  function SetAssignment(st: Store, a: AppId, p: Principal, on: bool, until: Option<int>, now: int): (Store, Outcome) {
    if until.Some? && p.AGroup? then (st, Conflict)
    else if on && !Live(until, now) then (st, InPast)
    else if a !in st.dir.apps || !Exists(st.dir, p) then (st, Missing)
    else
      var app := st.dir.apps[a].(revision := st.dir.apps[a].revision + 1);
      (RevokeLost(st.(dir := Assign(st.dir.(apps := st.dir.apps[a := app]), a, p, on, until)), now), Ok)
  }

  /** What a changed membership owes besides the row: a required policy and a mapped role both end grants. */
  function MembershipFollowUp(st: Store, g: GroupId, users: set<UserId>): Store {
    RoleChange(if g in st.dir.policed then RevokeUsers(st, users) else st, MappedApps(st.dir, g), users)
  }

  /** `admitted` is the verdict of the enrollment checks a policed group adds; see Enrollment. */
  function SetMembership(st: Store, g: GroupId, u: UserId, member: bool, until: Option<int>, admitted: bool,
      now: int): (Store, Outcome) {
    if member && !Live(until, now) then (st, InPast)
    else if g !in st.dir.groups || u !in st.dir.users then (st, Missing)
    else
      var changed := if member then (g, u) !in st.dir.members || st.dir.members[(g, u)] != until
        else (g, u) in st.dir.members;
      if changed && g in st.dir.policed && !admitted then (st, Refused)
      else
        var st1 := st.(dir := st.dir.(members := if member then st.dir.members[(g, u) := until]
          else st.dir.members - {(g, u)}));
        (RevokeLost(if changed then MembershipFollowUp(st1, g, {u}) else st1, now), Ok)
  }

  function MembersOf(d: Directory, g: GroupId): set<UserId> {
    set p | p in d.members && p.0 == g :: p.1
  }

  function WithoutGroup(d: Directory, g: GroupId): Directory {
    d.(groups := d.groups - {g}, policed := d.policed - {g},
       members := (map p | p in d.members && p.0 != g :: d.members[p]),
       granted := (set p | p in d.granted && p.1 != g),
       roleGroups := (set p | p in d.roleGroups && p.1 != g))
  }

  function DeleteGroup(st: Store, g: GroupId, admitted: bool, now: int): (Store, Outcome) {
    if g !in st.dir.groups then (st, Missing)
    else if g in st.dir.policed && !admitted then (st, Refused)
    else
      var st1 := if g in st.dir.policed then RevokeUsers(st, MembersOf(st.dir, g)) else st;
      var st2 := st1.(dir := WithoutGroup(st1.dir, g));
      (RevokeLost(RoleChange(st2, MappedApps(st.dir, g), MembersOf(st.dir, g)), now), Ok)
  }

  /** The administrators who can still act. */
  function ActiveAdmins(d: Directory, now: int): set<UserId> {
    set u | u in d.users && d.users[u].admin && Active(d, u, now)
  }

  function EditUser(st: Store, u: UserId, admin: bool, active: bool, endsAt: Option<int>, revoke: bool,
      now: int): (Store, Outcome) {
    if u !in st.dir.users then (st, Missing)
    else
      var current := st.dir.users[u];
      var scheduling := endsAt.Some? && endsAt != current.endsAt;
      if scheduling && !Live(endsAt, now) then (st, InPast)
      else if current.admin && current.active && (!admin || !active || scheduling)
        && |ActiveAdmins(st.dir, now)| <= 1 then
        (st, LastAdministrator)
      else
        var st1 := st.(dir := st.dir.(users := st.dir.users[u := User(admin, active, endsAt)]));
        (if (current.active && !active) || revoke then RevokeUsers(st1, {u}) else st1, Ok)
  }

  /** Disabling a client ends its tokens; its pending codes stay. */
  function EditClient(st: Store, c: ClientId, enabled: bool, revoke: bool): (Store, Outcome) {
    var st1 := if c in st.dir.clients then st.(dir := st.dir.(clients := st.dir.clients[c := enabled])) else st;
    (if revoke || !enabled
      then st1.(tokens := RevokeTokens(st1.tokens, set j | j in st1.tokens && st1.tokens[j].client == c)) else st1, Ok)
  }

  /** `checks` stands for the session, factor and code conditions of the same statement. */
  function Issue(st: Store, j: Jti, u: UserId, c: ClientId, expiresAt: int, checks: bool, now: int): (Store, Outcome) {
    if j in st.tokens || !checks || !ClientAccess(st.dir, c, u, now) then (st, Denied)
    else (st.(tokens := st.tokens[j := Token(u, c, expiresAt, false)]), Ok)
  }

  function NewCode(st: Store, i: CodeId, u: UserId, c: ClientId, checks: bool, now: int): (Store, Outcome) {
    if i in st.codeIds || !checks || !ClientAccess(st.dir, c, u, now) then (st, Denied)
    else (st.(codes := st.codes[i := Code(u, c, false)], codeIds := st.codeIds + {i}), Ok)
  }

  function SpendCode(st: Store, i: CodeId): (Store, Outcome) {
    if i !in st.codes || st.codes[i].used then (st, Denied)
    else (st.(codes := st.codes[i := st.codes[i].(used := true)]), Ok)
  }
}
