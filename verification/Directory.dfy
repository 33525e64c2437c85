/**
 The directory rows behind application access, and the views that decide it at an instant.
 Tables are maps and sets keyed by their primary keys; an instant is a unix second.
 */
module Directory {
  import opened Optional

  type UserId = string
  type AppId = string
  type GroupId = string
  type ClientId = string
  type RoleId = string

  datatype Mode = AssignedOnly | AllActiveUsers

  datatype User = User(admin: bool, active: bool, endsAt: Option<int>)

  /** The settings an app record carries besides its access policy. */
  datatype Settings = Settings(auth: string, authRevision: nat, legacyRole: bool, groupsClaim: bool)

  datatype App = App(
    client: Option<ClientId>,
    launcher: Option<string>,
    system: Option<string>,
    mode: Mode,
    enabled: bool,
    settings: Settings,
    revision: nat,
    roleRevision: nat)

  datatype Directory = Directory(
    users: map<UserId, User>,
    apps: map<AppId, App>,
    clients: map<ClientId, bool>,
    groups: set<GroupId>,
    policed: set<GroupId>,
    direct: map<(AppId, UserId), Option<int>>,
    granted: set<(AppId, GroupId)>,
    members: map<(GroupId, UserId), Option<int>>,
    roles: map<RoleId, AppId>,
    roleUsers: set<(RoleId, UserId)>,
    roleGroups: set<(RoleId, GroupId)>)

  // ---- the views ------------------------------------------------------------------------------------

  predicate Live(until: Option<int>, t: int) {
    until.None? || t < until.value
  }

  predicate Active(d: Directory, u: UserId, t: int) {
    u in d.users && d.users[u].active && Live(d.users[u].endsAt, t)
  }

  predicate ClientOn(d: Directory, app: App) {
    app.client.None? || (app.client.value in d.clients && d.clients[app.client.value])
  }

  predicate DirectGrant(d: Directory, a: AppId, u: UserId, t: int) {
    (a, u) in d.direct && Live(d.direct[(a, u)], t)
  }

  predicate LiveMember(d: Directory, g: GroupId, u: UserId, t: int) {
    (g, u) in d.members && Live(d.members[(g, u)], t)
  }

  predicate GroupGrant(d: Directory, a: AppId, u: UserId, t: int) {
    exists p :: p in d.granted && p.0 == a && LiveMember(d, p.1, u, t)
  }

  /** One predicate decides live access and policy previews; administrators have no bypass. */
  predicate Allowed(active: bool, clientOn: bool, enabled: bool, mode: Mode, direct: bool, grouped: bool) {
    active && clientOn && enabled && (mode.AllActiveUsers? || direct || grouped)
  }

  predicate Access(d: Directory, a: AppId, u: UserId, t: int) {
    && a in d.apps && u in d.users
    && Allowed(Active(d, u, t), ClientOn(d, d.apps[a]), d.apps[a].enabled, d.apps[a].mode,
               DirectGrant(d, a, u, t), GroupGrant(d, a, u, t))
  }

  predicate AppOf(d: Directory, c: ClientId, a: AppId) {
    a in d.apps && d.apps[a].client == Some(c)
  }

  /** The lookup every OAuth decision uses: some app record of the client grants access. */
  predicate ClientAccess(d: Directory, c: ClientId, u: UserId, t: int) {
    exists a :: a in d.apps && AppOf(d, c, a) && Access(d, a, u, t)
  }

  /** `client_id` is UNIQUE in the registry. */
  ghost predicate UniqueClients(d: Directory) {
    forall a, b, c :: AppOf(d, c, a) && AppOf(d, c, b) ==> a == b
  }

  predicate HoldsRole(d: Directory, r: RoleId, u: UserId, t: int) {
    (r, u) in d.roleUsers || exists p :: p in d.roleGroups && p.0 == r && LiveMember(d, p.1, u, t)
  }

  function RolesOf(d: Directory, a: AppId, u: UserId, t: int): set<RoleId> {
    set r | r in d.roles && d.roles[r] == a && HoldsRole(d, r, u, t)
  }

  /** Some role of the app is given to the group's members. */
  predicate MapsRole(d: Directory, g: GroupId, a: AppId) {
    exists r :: r in d.roles && (r, g) in d.roleGroups && d.roles[r] == a
  }

  /** The client of an app that gives the group's members a role. */
  predicate RoleClient(d: Directory, g: GroupId, c: ClientId) {
    exists a :: AppOf(d, c, a) && a in d.apps && MapsRole(d, g, a)
  }

  // ---- when access ends -----------------------------------------------------------------------------

  /** The grant rows the end-of-access query reads: a direct grant, or a membership of a granted group. */
  ghost predicate GrantRow(d: Directory, a: AppId, u: UserId, until: Option<int>) {
    || ((a, u) in d.direct && d.direct[(a, u)] == until)
    || exists p :: p in d.granted && p.0 == a && (p.1, u) in d.members && d.members[(p.1, u)] == until
  }

  predicate HasGrant(d: Directory, a: AppId, u: UserId, t: int) {
    DirectGrant(d, a, u, t) || GroupGrant(d, a, u, t)
  }

  lemma GrantRowsDecide(d: Directory, a: AppId, u: UserId, t: int)
    ensures HasGrant(d, a, u, t) <==> exists until :: GrantRow(d, a, u, until) && Live(until, t)
  {
    if DirectGrant(d, a, u, t) {
      assert GrantRow(d, a, u, d.direct[(a, u)]);
    }
    if p :| p in d.granted && p.0 == a && LiveMember(d, p.1, u, t) {
      assert GrantRow(d, a, u, d.members[(p.1, u)]);
    }
    if until :| GrantRow(d, a, u, until) && Live(until, t) {
      if !((a, u) in d.direct && d.direct[(a, u)] == until) {
        var p :| p in d.granted && p.0 == a && (p.1, u) in d.members && d.members[(p.1, u)] == until;
        assert LiveMember(d, p.1, u, t);
      }
    }
  }

  /** The rows of the end-of-access query, in whatever order the database returns them. */
  method QueryGrants(d: Directory, a: AppId, u: UserId, now: int) returns (rows: seq<Option<int>>)
    ensures forall until :: until in rows <==> GrantRow(d, a, u, until) && Live(until, now)
  {
    rows := [];
    if (a, u) in d.direct && Live(d.direct[(a, u)], now) {
      rows := [d.direct[(a, u)]];
    }
    var todo := set p | p in d.granted && p.0 == a && LiveMember(d, p.1, u, now);
    ghost var all := todo;
    while todo != {}
      invariant todo <= all
      invariant forall until :: until in rows <==>
        || ((a, u) in d.direct && d.direct[(a, u)] == until && Live(until, now))
        || exists p :: p in all && p !in todo && d.members[(p.1, u)] == until
    {
      var p :| p in todo;
      rows := rows + [d.members[(p.1, u)]];
      todo := todo - {p};
    }
  }

  /** What `AccessEndsAt` answers for an app: the latest live grant bounded by the account's end. */
  ghost predicate EndsAt(d: Directory, a: AppId, u: UserId, now: int, end: Option<int>)
    requires a in d.apps && u in d.users
  {
    var account := d.users[u].endsAt;
    if d.apps[a].mode.AllActiveUsers? || GrantRow(d, a, u, None) || !HasGrant(d, a, u, now) then end == account
    else
      exists latest :: GrantRow(d, a, u, Some(latest)) && now < latest
        && (forall t :: GrantRow(d, a, u, Some(t)) ==> t <= latest)
        && end == if account.None? || latest < account.value then Some(latest) else account
  }

  /** The latest bound among the rows; `open` when one of them has none. */
  method LatestBound(rows: seq<Option<int>>) returns (open: bool, latest: Option<int>)
    ensures open <==> None in rows
    ensures !open ==> if rows == [] then latest.None? else latest.Some? && latest in rows
    ensures !open ==> forall t :: Some(t) in rows ==> t <= latest.value
  {
    open, latest := false, None;
    for i := 0 to |rows|
      invariant None !in rows[..i]
      invariant if i == 0 then latest.None? else latest.Some? && latest in rows[..i]
      invariant forall k :: 0 <= k < i ==> rows[k].value <= latest.value
    {
      if rows[i].None? {
        return true, None;
      }
      if latest.None? || latest.value < rows[i].value {
        latest := rows[i];
      }
    }
  }

  /**
   The instant the user's access to the client's app ends, or nothing. When access holds now it is
   its exact boundary: from now on access holds precisely before it.
   */
  method AccessEndsAt(d: Directory, u: UserId, c: ClientId, now: int) returns (end: Option<int>)
    requires UniqueClients(d)
    ensures u in d.users ==> forall a :: AppOf(d, c, a) ==> EndsAt(d, a, u, now, end)
    ensures ClientAccess(d, c, u, now) ==>
      forall t :: now <= t ==> (ClientAccess(d, c, u, t) <==> end.None? || t < end.value)
  {
    var apps := set a | a in d.apps && AppOf(d, c, a);
    assert forall a :: AppOf(d, c, a) ==> a in apps;
    if apps == {} || u !in d.users {
      return None;
    }
    var a :| a in apps;
    end := d.users[u].endsAt;
    if d.apps[a].mode.AssignedOnly? {
      var rows := QueryGrants(d, a, u, now);
      var open, latest := LatestBound(rows);
      GrantRowsDecide(d, a, u, now);
      if !open && (end.None? || (latest.Some? && latest.value < end.value)) {
        end := latest;
      }
      RowsGiveEnd(d, a, u, now, rows, open, latest, end);
    }
    BoundaryIsExact(d, c, a, u, now, end);
  }

  lemma RowsGiveEnd(d: Directory, a: AppId, u: UserId, now: int, rows: seq<Option<int>>, open: bool,
      latest: Option<int>, end: Option<int>)
    requires a in d.apps && u in d.users && d.apps[a].mode.AssignedOnly?
    requires forall until :: until in rows <==> GrantRow(d, a, u, until) && Live(until, now)
    requires open <==> None in rows
    requires !open ==> if rows == [] then latest.None? else latest.Some? && latest in rows
    requires !open ==> forall t :: Some(t) in rows ==> t <= latest.value
    requires var account := d.users[u].endsAt;
      end == if !open && (account.None? || (latest.Some? && latest.value < account.value)) then latest else account
    ensures EndsAt(d, a, u, now, end)
  {
    GrantRowsDecide(d, a, u, now);
    if !open && rows != [] {
      assert rows[0] in rows;
      forall t | GrantRow(d, a, u, Some(t)) ensures t <= latest.value {
        assert now < t ==> Some(t) in rows;
      }
    }
  }

  lemma BoundaryIsExact(d: Directory, c: ClientId, a: AppId, u: UserId, now: int, end: Option<int>)
    requires UniqueClients(d) && AppOf(d, c, a) && u in d.users && EndsAt(d, a, u, now, end)
    ensures ClientAccess(d, c, u, now) ==>
      forall t :: now <= t ==> (ClientAccess(d, c, u, t) <==> end.None? || t < end.value)
  {
    GrantRowsDecide(d, a, u, now);
    forall t | now <= t && ClientAccess(d, c, u, now)
      ensures ClientAccess(d, c, u, t) <==> end.None? || t < end.value
    {
      GrantRowsDecide(d, a, u, t);
      assert ClientAccess(d, c, u, t) <==> Access(d, a, u, t);
      assert ClientAccess(d, c, u, now) <==> Access(d, a, u, now);
    }
  }

  // ---- the exchanged token's lifetime ---------------------------------------------------------------

  const ACCESS_TOKEN_TTL := 900

  function TokenExpiry(end: Option<int>, now: int): int {
    if end.Some? && end.value < now + ACCESS_TOKEN_TTL then end.value else now + ACCESS_TOKEN_TTL
  }

  /** A token issued with access never outlives it, and is never cut shorter than access or the TTL. */
  lemma TokenNeverOutlivesAccess(d: Directory, u: UserId, c: ClientId, a: AppId, now: int, end: Option<int>)
    requires UniqueClients(d) && AppOf(d, c, a) && u in d.users && EndsAt(d, a, u, now, end)
    requires ClientAccess(d, c, u, now)
    ensures var exp := TokenExpiry(end, now);
      && now < exp <= now + ACCESS_TOKEN_TTL
      && (forall t :: now <= t < exp ==> ClientAccess(d, c, u, t))
      && (exp < now + ACCESS_TOKEN_TTL ==> !ClientAccess(d, c, u, exp))
  {
    BoundaryIsExact(d, c, a, u, now, end);
  }
}
