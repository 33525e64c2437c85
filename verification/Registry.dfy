/**
 The application registry: one record per application, holding at most one OAuth client, one launcher
 entry and one paired system. Records appear and vanish with their connections, and can be linked and
 unlinked.
 */
module Registry {
  import opened Optional
  import opened Directory

  datatype Kind = ClientKind | LauncherKind | SystemKind

  /** The directory with the other two connection tables. */
  datatype Reg = Reg(dir: Directory, launchers: set<string>, systems: set<string>)

  const DEFAULTS := Settings("reuse", 1, false, false)

  function RefOf(app: App, kind: Kind): Option<string> {
    match kind
    case ClientKind => app.client
    case LauncherKind => app.launcher
    case SystemKind => app.system
  }

  function SetRef(app: App, kind: Kind, ref: Option<string>): App {
    match kind
    case ClientKind => app.(client := ref)
    case LauncherKind => app.(launcher := ref)
    case SystemKind => app.(system := ref)
  }

  predicate Connected(app: App) {
    app.client.Some? || app.launcher.Some? || app.system.Some?
  }

  predicate Exists(reg: Reg, kind: Kind, id: string) {
    match kind
    case ClientKind => id in reg.dir.clients
    case LauncherKind => id in reg.launchers
    case SystemKind => id in reg.systems
  }

  function Ref(reg: Reg, a: AppId, kind: Kind): Option<string> {
    if a in reg.dir.apps then RefOf(reg.dir.apps[a], kind) else None
  }

  // ---- transactions ---------------------------------------------------------------------------------

  function AddConnection(reg: Reg, kind: Kind, id: string, on: bool): Reg {
    match kind
    case ClientKind => reg.(dir := reg.dir.(clients := reg.dir.clients[id := on]))
    case LauncherKind => reg.(launchers := reg.launchers + {id})
    case SystemKind => reg.(systems := reg.systems + {id})
  }

  function DropConnection(reg: Reg, kind: Kind, id: string): Reg {
    match kind
    case ClientKind => reg.(dir := reg.dir.(clients := reg.dir.clients - {id}))
    case LauncherKind => reg.(launchers := reg.launchers - {id})
    case SystemKind => reg.(systems := reg.systems - {id})
  }

  function WithApps(reg: Reg, apps: map<AppId, App>): Reg {
    reg.(dir := reg.dir.(apps := apps))
  }

  /** Records leave with their grants and roles. */
  function DropApps(d: Directory, gone: set<AppId>): Directory {
    d.(apps := d.apps - gone,
       direct := (map p | p in d.direct && p.0 !in gone :: d.direct[p]),
       granted := (set p | p in d.granted && p.0 !in gone),
       roles := (map r | r in d.roles && d.roles[r] !in gone :: d.roles[r]),
       roleUsers := (set p | p in d.roleUsers && p.0 in d.roles && d.roles[p.0] !in gone),
       roleGroups := (set p | p in d.roleGroups && p.0 in d.roles && d.roles[p.0] !in gone))
  }

  function NewRecord(kind: Kind, id: string): App {
    SetRef(App(None, None, None, AssignedOnly, true, DEFAULTS, 1, 0), kind, Some(id))
  }

  /** Every insert into a connection table creates its record. */
  function Create(reg: Reg, kind: Kind, id: string, on: bool, a: AppId): (Reg, bool) {
    if Exists(reg, kind, id) || a in reg.dir.apps then (reg, false)
    else (WithApps(AddConnection(reg, kind, id, on), reg.dir.apps[a := NewRecord(kind, id)]), true)
  }

  function Released(apps: map<AppId, App>, kind: Kind, id: string): map<AppId, App> {
    map a | a in apps :: if RefOf(apps[a], kind) == Some(id)
      then SetRef(apps[a], kind, None).(revision := apps[a].revision + 1) else apps[a]
  }

  function Empty(apps: map<AppId, App>): set<AppId> {
    set a | a in apps && !Connected(apps[a])
  }

  /** Deleting a connection releases it from its record, and a record left empty goes too. */
  function Delete(reg: Reg, kind: Kind, id: string): Reg {
    var rest := DropConnection(reg, kind, id);
    var released := rest.dir.(apps := Released(reg.dir.apps, kind, id));
    rest.(dir := DropApps(released, Empty(released.apps)))
  }

  predicate Assigned(d: Directory, a: AppId) {
    (exists p :: p in d.direct && p.0 == a) || (exists p :: p in d.granted && p.0 == a)
  }

  predicate HasRoles(d: Directory, a: AppId) {
    exists r :: r in d.roles && d.roles[r] == a
  }

  /** Two records that differ in anything a connection would inherit may not be joined. */
  predicate Linkable(d: Directory, target: AppId, source: AppId)
    requires target in d.apps && source in d.apps
  {
    var t, s := d.apps[target], d.apps[source];
    && t.mode == s.mode && t.enabled == s.enabled && t.settings.auth == s.settings.auth
    && !Assigned(d, target) && !Assigned(d, source) && !HasRoles(d, target) && !HasRoles(d, source)
    && t.settings.legacyRole == s.settings.legacyRole && t.settings.groupsClaim == s.settings.groupsClaim
    && !(t.client.Some? && s.client.Some?) && !(t.launcher.Some? && s.launcher.Some?)
       && !(t.system.Some? && s.system.Some?)
  }

  function Pick(a: Option<string>, b: Option<string>): Option<string> {
    if a.Some? then a else b
  }

  function Joined(t: App, s: App): App {
    t.(client := Pick(t.client, s.client), launcher := Pick(t.launcher, s.launcher), system := Pick(t.system, s.system),
      revision := t.revision + 1)
  }

  function Link(reg: Reg, target: AppId, source: AppId, targetRevision: nat, sourceRevision: nat): (Reg, bool) {
    var d := reg.dir;
    if target == source || target !in d.apps || source !in d.apps then (reg, false)
    else if d.apps[target].revision != targetRevision || d.apps[source].revision != sourceRevision
      || !Linkable(d, target, source) then (reg, false)
    else
      var dropped := DropApps(d, {source});
      (reg.(dir := dropped.(apps := dropped.apps[target := Joined(d.apps[target], d.apps[source])])), true)
  }

  function Refs(app: App): nat {
    (if app.client.Some? then 1 else 0) + (if app.launcher.Some? then 1 else 0) + (if app.system.Some? then 1 else 0)
  }

  function Split(app: App, kind: Kind): App {
    SetRef(App(None, None, None, app.mode, app.enabled, app.settings, 1, 0), kind, RefOf(app, kind))
  }

  function Copies(d: Directory, id: AppId, a: AppId): set<(AppId, UserId)> {
    set q | q in d.direct && q.0 == id :: (a, q.1)
  }

  /** The copied direct grants name the users only; the instants they end at stay behind. */
  function CopiedDirect(d: Directory, id: AppId, a: AppId): map<(AppId, UserId), Option<int>> {
    d.direct + map p | p in Copies(d, id, a) :: None
  }

  function CopiedGroups(d: Directory, id: AppId, a: AppId): set<(AppId, GroupId)> {
    d.granted + set q | q in d.granted && q.0 == id :: (a, q.1)
  }

  function Unlink(reg: Reg, id: AppId, kind: Kind, revision: nat, a: AppId): (Reg, bool) {
    var d := reg.dir;
    if id !in d.apps || a in d.apps then (reg, false)
    else if d.apps[id].revision != revision || Refs(d.apps[id]) < 2 || RefOf(d.apps[id], kind).None? || HasRoles(d, id)
      then (reg, false)
    else
      var app := d.apps[id];
      (reg.(dir := d.(apps := d.apps[id := SetRef(app, kind, None).(revision := app.revision
        + 1)][a := Split(app, kind)],
                      direct := CopiedDirect(d, id, a), granted := CopiedGroups(d, id, a))), true)
  }

  // ---- every connection in exactly one record -------------------------------------------------------

  /** The record that holds a connection. */
  ghost predicate Holds(reg: Reg, a: AppId, kind: Kind, id: string) {
    Ref(reg, a, kind) == Some(id)
  }

  ghost predicate Sound(reg: Reg) {
    && (forall a, kind, id :: Holds(reg, a, kind, id) ==> Exists(reg, kind, id))
    && (forall kind, id :: Exists(reg, kind, id) ==> exists a :: Holds(reg, a, kind, id))
    && (forall a, b, kind, id :: Holds(reg, a, kind, id) && Holds(reg, b, kind, id) ==> a == b)
    && (forall a :: a in reg.dir.apps ==> Connected(reg.dir.apps[a]))
    && (forall p :: p in reg.dir.direct ==> p.0 in reg.dir.apps)
    && (forall p :: p in reg.dir.granted ==> p.0 in reg.dir.apps)
    && (forall r :: r in reg.dir.roles ==> reg.dir.roles[r] in reg.dir.apps)
  }

  lemma CreateKeeps(reg: Reg, kind: Kind, id: string, on: bool, a: AppId)
    requires Sound(reg)
    ensures Sound(Create(reg, kind, id, on, a).0)
  {
    var (reg', ok) := Create(reg, kind, id, on, a);
    if ok {
      assert forall b, k, i :: Holds(reg', b, k, i) <==> Holds(reg, b, k, i) || (b == a && k == kind && i == id);
      assert forall k, i :: Exists(reg', k, i) <==> Exists(reg, k, i) || (k == kind && i == id);
      forall k, i | Exists(reg', k, i) ensures exists b :: Holds(reg', b, k, i) {
        if Exists(reg, k, i) {
          var b :| Holds(reg, b, k, i);
          assert Holds(reg', b, k, i);
        } else {
          assert Holds(reg', a, k, i);
        }
      }
    }
  }

  lemma DeleteKeeps(reg: Reg, kind: Kind, id: string)
    requires Sound(reg)
    ensures Sound(Delete(reg, kind, id))
  {
    var reg' := Delete(reg, kind, id);
    assert forall b, k, i :: Holds(reg', b, k, i) <==> Holds(reg, b, k, i) && !(k == kind && i == id);
    assert forall k, i :: Exists(reg', k, i) <==> Exists(reg, k, i) && !(k == kind && i == id);
    forall k, i | Exists(reg', k, i) ensures exists b :: Holds(reg', b, k, i) {
      var b :| Holds(reg, b, k, i);
      assert Holds(reg', b, k, i);
    }
  }

  lemma LinkHolds(reg: Reg, target: AppId, source: AppId, targetRevision: nat, sourceRevision: nat)
    requires Link(reg, target, source, targetRevision, sourceRevision).1
    ensures var reg' := Link(reg, target, source, targetRevision, sourceRevision).0;
      forall a, kind, id :: Holds(reg', a, kind, id) <==>
        a != source && (Holds(reg, a, kind, id) || (a == target && Holds(reg, source, kind, id)))
  {
  }

  lemma LinkKeeps(reg: Reg, target: AppId, source: AppId, targetRevision: nat, sourceRevision: nat)
    requires Sound(reg)
    ensures Sound(Link(reg, target, source, targetRevision, sourceRevision).0)
  {
    var (reg', ok) := Link(reg, target, source, targetRevision, sourceRevision);
    if ok {
      LinkHolds(reg, target, source, targetRevision, sourceRevision);
      forall k, i | Exists(reg', k, i) ensures exists b :: Holds(reg', b, k, i) {
        assert Exists(reg, k, i);
        var b :| Holds(reg, b, k, i);
        assert Holds(reg', if b == source then target else b, k, i);
      }
    }
  }

  lemma UnlinkHolds(reg: Reg, id: AppId, kind: Kind, revision: nat, a: AppId)
    requires Unlink(reg, id, kind, revision, a).1
    ensures var reg' := Unlink(reg, id, kind, revision, a).0;
      forall b, k, i :: Holds(reg', b, k, i) <==>
        if b == a then k == kind && Holds(reg, id, k, i) else Holds(reg, b, k, i) && !(b == id && k == kind)
  {
  }

  lemma UnlinkKeeps(reg: Reg, id: AppId, kind: Kind, revision: nat, a: AppId)
    requires Sound(reg)
    ensures Sound(Unlink(reg, id, kind, revision, a).0)
  {
    var (reg', ok) := Unlink(reg, id, kind, revision, a);
    if ok {
      UnlinkHolds(reg, id, kind, revision, a);
      forall k, i | Exists(reg', k, i) ensures exists b :: Holds(reg', b, k, i) {
        assert Exists(reg, k, i);
        var b :| Holds(reg, b, k, i);
        assert Holds(reg', if b == id && k == kind then a else b, k, i);
      }
    }
  }

  datatype Op =
    | CreateOp(kind: Kind, id: string, on: bool, app: AppId)
    | DeleteOp(kind: Kind, id: string)
    | LinkOp(target: AppId, source: AppId, targetRevision: nat, sourceRevision: nat)
    | UnlinkOp(app: AppId, kind: Kind, revision: nat, newApp: AppId)

  function Step(reg: Reg, op: Op): Reg {
    match op
    case CreateOp(kind, id, on, a) => Create(reg, kind, id, on, a).0
    case DeleteOp(kind, id) => Delete(reg, kind, id)
    case LinkOp(t, s, tr, sr) => Link(reg, t, s, tr, sr).0
    case UnlinkOp(id, kind, revision, a) => Unlink(reg, id, kind, revision, a).0
  }

  function Run(reg: Reg, ops: seq<Op>): Reg
    decreases |ops|
  {
    if ops == [] then reg else Run(Step(reg, ops[0]), ops[1..])
  }

  /** Through every run, each connection is in exactly one record and no record is empty. */
  lemma {:induction false} RunStaysSound(reg: Reg, ops: seq<Op>)
    requires Sound(reg)
    ensures Sound(Run(reg, ops))
    decreases |ops|
  {
    if ops != [] {
      match ops[0] {
        case CreateOp(kind, id, on, a) => CreateKeeps(reg, kind, id, on, a);
        case DeleteOp(kind, id) => DeleteKeeps(reg, kind, id);
        case LinkOp(t, s, tr, sr) => LinkKeeps(reg, t, s, tr, sr);
        case UnlinkOp(id, kind, revision, a) => UnlinkKeeps(reg, id, kind, revision, a);
      }
      RunStaysSound(Step(reg, ops[0]), ops[1..]);
    }
  }

  // ---- who has access -------------------------------------------------------------------------------

  /** A user may use a connection when the record that holds it lets them in. */
  ghost predicate ConnectionAccess(reg: Reg, kind: Kind, id: string, u: UserId, t: int) {
    exists a :: Holds(reg, a, kind, id) && Access(reg.dir, a, u, t)
  }

  lemma SoundMeansUnique(reg: Reg)
    requires Sound(reg)
    ensures UniqueClients(reg.dir)
  {
    forall a, b, c | AppOf(reg.dir, c, a) && AppOf(reg.dir, c, b) ensures a == b {
      assert Holds(reg, a, ClientKind, c) && Holds(reg, b, ClientKind, c);
    }
  }

  /** For an OAuth client that is the lookup every OAuth decision uses. */
  lemma ClientConnectionAccess(reg: Reg, c: ClientId, u: UserId, t: int)
    ensures ConnectionAccess(reg, ClientKind, c, u, t) <==> ClientAccess(reg.dir, c, u, t)
  {
    if ClientAccess(reg.dir, c, u, t) {
      var a :| a in reg.dir.apps && AppOf(reg.dir, c, a) && Access(reg.dir, a, u, t);
      assert Holds(reg, a, ClientKind, c);
    }
    if ConnectionAccess(reg, ClientKind, c, u, t) {
      var a :| Holds(reg, a, ClientKind, c) && Access(reg.dir, a, u, t);
      assert AppOf(reg.dir, c, a);
    }
  }

  /**
   However records have been created, deleted, linked and unlinked, a client has one record, so the end
   of access computed on it is the exact boundary for the client, and a token never outlives it.
   */
  lemma EndOfAccessIsExact(reg: Reg, ops: seq<Op>, c: ClientId, a: AppId, u: UserId, now: int, end: Option<int>)
    requires Sound(reg)
    requires var d := Run(reg, ops).dir; AppOf(d, c, a) && u in d.users && EndsAt(d, a, u, now, end)
    requires ConnectionAccess(Run(reg, ops), ClientKind, c, u, now)
    ensures forall t :: now <= t ==>
      (ConnectionAccess(Run(reg, ops), ClientKind, c, u, t) <==> end.None? || t < end.value)
    ensures forall t :: now <= t < TokenExpiry(end, now) ==> ConnectionAccess(Run(reg, ops), ClientKind, c, u, t)
  {
    var reg' := Run(reg, ops);
    RunStaysSound(reg, ops);
    SoundMeansUnique(reg');
    forall t ensures ConnectionAccess(reg', ClientKind, c, u, t) <==> ClientAccess(reg'.dir, c, u, t) {
      ClientConnectionAccess(reg', c, u, t);
    }
    BoundaryIsExact(reg'.dir, c, a, u, now, end);
    TokenNeverOutlivesAccess(reg'.dir, u, c, a, now, end);
  }

  /** A connection's access is decided by the record that holds it. */
  lemma AccessByRecord(reg: Reg, a: AppId, kind: Kind, id: string, u: UserId, t: int)
    requires Sound(reg) && Holds(reg, a, kind, id)
    ensures ConnectionAccess(reg, kind, id, u, t) <==> Access(reg.dir, a, u, t)
  {
  }

  lemma DroppedKeepsGrants(d: Directory, gone: set<AppId>, a: AppId, u: UserId, t: int)
    requires a !in gone
    ensures HasGrant(DropApps(d, gone), a, u, t) == HasGrant(d, a, u, t)
  {
    var d' := DropApps(d, gone);
    if p :| p in d.granted && p.0 == a && LiveMember(d, p.1, u, t) {
      assert p in d'.granted && LiveMember(d', p.1, u, t);
    }
  }

  lemma NoGrants(d: Directory, a: AppId, u: UserId, t: int)
    requires !Assigned(d, a)
    ensures !HasGrant(d, a, u, t)
  {
    assert (a, u) in d.direct ==> (a, u).0 == a;
  }

  /** The record of a joined pair that brings a client which is switched off. */
  predicate BringsOff(d: Directory, app: App) {
    app.client.Some? && !ClientOn(d, app)
  }

  /** A connection without a client, open to everybody, is joined with a client that is switched off. */
  predicate Hidden(d: Directory, own: AppId, other: AppId, u: UserId, t: int) {
    && own in d.apps && other in d.apps
    && d.apps[own].client.None? && BringsOff(d, d.apps[other])
    && d.apps[own].mode.AllActiveUsers? && d.apps[own].enabled && Active(d, u, t)
  }

  lemma LinkedRecord(reg: Reg, target: AppId, source: AppId, targetRevision: nat, sourceRevision: nat, a: AppId,
      u: UserId, t: int)
    requires Link(reg, target, source, targetRevision, sourceRevision).1 && a in reg.dir.apps
    ensures var d, d' := reg.dir, Link(reg, target, source, targetRevision, sourceRevision).0.dir;
      var a' := if a == source then target else a;
      && a' in d'.apps && d'.apps[a'].mode == d.apps[a].mode && d'.apps[a'].enabled == d.apps[a].enabled
      && HasGrant(d', a', u, t) == HasGrant(d, a, u, t) && Active(d', u, t) == Active(d, u, t)
         && (u in d'.users <==> u in d.users)
      && (ClientOn(d', d'.apps[a']) <==>
            ClientOn(d, d.apps[a]) && !(a == target && BringsOff(d, d.apps[source]))
              && !(a == source && BringsOff(d, d.apps[target])))
  {
    var d, d' := reg.dir, Link(reg, target, source, targetRevision, sourceRevision).0.dir;
    var a' := if a == source then target else a;
    NoGrants(d, target, u, t);
    NoGrants(d, source, u, t);
    DroppedKeepsGrants(d, {source}, a', u, t);
    var dropped := DropApps(d, {source});
    assert HasGrant(d', a', u, t) == HasGrant(dropped, a', u, t);
  }

  /**
   Linking, connection by connection: no client's users ever change, and a launcher or system loses its
   users exactly when it had no client and is joined with one that is switched off.
   */
  lemma LinkChangesAccessIff(reg: Reg, target: AppId, source: AppId, targetRevision: nat, sourceRevision: nat,
      kind: Kind, id: string, u: UserId, t: int)
    requires Sound(reg) && Link(reg, target, source, targetRevision, sourceRevision).1
    ensures var reg' := Link(reg, target, source, targetRevision, sourceRevision).0;
      && (ConnectionAccess(reg', kind, id, u, t) ==> ConnectionAccess(reg, kind, id, u, t))
      && (ConnectionAccess(reg', kind, id, u, t) != ConnectionAccess(reg, kind, id, u, t) <==>
            || (Holds(reg, target, kind, id) && Hidden(reg.dir, target, source, u, t))
            || (Holds(reg, source, kind, id) && Hidden(reg.dir, source, target, u, t)))
  {
    var reg' := Link(reg, target, source, targetRevision, sourceRevision).0;
    LinkKeeps(reg, target, source, targetRevision, sourceRevision);
    LinkHolds(reg, target, source, targetRevision, sourceRevision);
    if a :| Holds(reg, a, kind, id) {
      var a' := if a == source then target else a;
      assert Holds(reg', a', kind, id);
      AccessByRecord(reg, a, kind, id, u, t);
      AccessByRecord(reg', a', kind, id, u, t);
      LinkedRecord(reg, target, source, targetRevision, sourceRevision, a, u, t);
      NoGrants(reg.dir, target, u, t);
      NoGrants(reg.dir, source, u, t);
    }
  }

  /** Linking changes no OAuth client's effective users, at any instant. */
  lemma LinkKeepsAccess(reg: Reg, target: AppId, source: AppId, targetRevision: nat, sourceRevision: nat, c: ClientId,
      u: UserId, t: int)
    requires Sound(reg) && Link(reg, target, source, targetRevision, sourceRevision).1
    ensures ClientAccess(Link(reg, target, source, targetRevision, sourceRevision).0.dir, c, u, t) <==>
      ClientAccess(reg.dir, c, u, t)
  {
    var reg' := Link(reg, target, source, targetRevision, sourceRevision).0;
    LinkChangesAccessIff(reg, target, source, targetRevision, sourceRevision, ClientKind, c, u, t);
    ClientConnectionAccess(reg, c, u, t);
    ClientConnectionAccess(reg', c, u, t);
  }

  // ---- unlinking ------------------------------------------------------------------------------------

  /** A direct grant of the record that has run out. */
  predicate Lapsed(d: Directory, id: AppId, u: UserId, t: int) {
    (id, u) in d.direct && !Live(d.direct[(id, u)], t)
  }

  /** Unlinking `moved` takes the connection out of the client's record. */
  predicate LeavesClient(kind: Kind, moved: Kind) {
    kind != ClientKind && (moved == ClientKind || kind == moved)
  }

  /**
   Someone kept out of a connection only by a lapsed grant, whose copy has no end, or only by a client
   that is switched off, and that the connection leaves.
   */
  predicate Reopened(d: Directory, id: AppId, kind: Kind, moved: Kind, u: UserId, t: int) {
    && id in d.apps && d.apps[id].enabled && Active(d, u, t)
    && var on, granted := ClientOn(d, d.apps[id]), d.apps[id].mode.AllActiveUsers? || HasGrant(d, id, u, t);
       || (kind == moved && !granted && Lapsed(d, id, u, t) && (on || LeavesClient(kind, moved)))
       || (LeavesClient(kind, moved) && !on && granted)
  }

  lemma CopyDirect(d: Directory, id: AppId, a: AppId, b: AppId, u: UserId, t: int)
    requires forall p :: p in d.direct ==> p.0 != a
    ensures var direct := CopiedDirect(d, id, a);
      ((b, u) in direct && Live(direct[(b, u)], t)) <==> if b == a then (id, u) in d.direct else DirectGrant(d, b, u, t)
  {
    assert (a, u) in Copies(d, id, a) <==> (id, u) in d.direct by {
      if (id, u) in d.direct {
        assert (id, u).0 == id && (id, u).1 == u;
      }
    }
    assert forall p :: p in Copies(d, id, a) ==> p.0 == a;
    assert (a, u).0 == a;
  }

  lemma CopyGroups(d: Directory, d': Directory, id: AppId, a: AppId, b: AppId, u: UserId, t: int)
    requires (forall p :: p in d.granted ==> p.0 != a) && d'.granted == CopiedGroups(d, id, a)
      && d'.members == d.members
    ensures GroupGrant(d', b, u, t) == GroupGrant(d, if b == a then id else b, u, t)
  {
    var from := if b == a then id else b;
    if p :| p in d.granted && p.0 == from && LiveMember(d, p.1, u, t) {
      assert (b, p.1) in d'.granted && (b, p.1).0 == b && (b, p.1).1 == p.1;
      assert LiveMember(d', p.1, u, t);
    }
    if p :| p in d'.granted && p.0 == b && LiveMember(d', p.1, u, t) {
      assert (from, p.1) in d.granted && (from, p.1).0 == from && (from, p.1).1 == p.1;
      assert LiveMember(d, p.1, u, t);
    }
  }

  lemma UnlinkedGrants(reg: Reg, id: AppId, moved: Kind, revision: nat, a: AppId, b: AppId, u: UserId, t: int)
    requires Sound(reg) && Unlink(reg, id, moved, revision, a).1
    ensures HasGrant(Unlink(reg, id, moved, revision, a).0.dir, b, u, t) <==>
      if b == a then HasGrant(reg.dir, id, u, t) || Lapsed(reg.dir, id, u, t) else HasGrant(reg.dir, b, u, t)
  {
    var d' := Unlink(reg, id, moved, revision, a).0.dir;
    CopyDirect(reg.dir, id, a, b, u, t);
    CopyGroups(reg.dir, d', id, a, b, u, t);
  }

  /** The record that holds a connection afterwards: same policy, and a client only if it came along. */
  lemma UnlinkedRecord(reg: Reg, id: AppId, moved: Kind, revision: nat, a: AppId, b: AppId, kind: Kind, i: string,
      u: UserId, t: int)
    requires Sound(reg) && Unlink(reg, id, moved, revision, a).1 && Holds(reg, b, kind, i)
    ensures var d, d' := reg.dir, Unlink(reg, id, moved, revision, a).0.dir;
      var b' := if b == id && kind == moved then a else b;
      && Holds(Unlink(reg, id, moved, revision, a).0, b', kind, i)
      && b' in d'.apps && d'.apps[b'].mode == d.apps[b].mode && d'.apps[b'].enabled == d.apps[b].enabled
      && Active(d', u, t) == Active(d, u, t) && (u in d'.users <==> u in d.users)
      && (ClientOn(d', d'.apps[b']) <==> ClientOn(d, d.apps[b]) || (b == id && LeavesClient(kind, moved)))
  {
  }

  /**
   Unlinking, connection by connection: nobody loses access, and someone gains it at an instant exactly
   where the record kept them out of that connection only by a grant that had lapsed or by a client that
   was switched off.
   */
  lemma UnlinkChangesAccessIff(reg: Reg, id: AppId, moved: Kind, revision: nat, a: AppId, kind: Kind, i: string,
      u: UserId, t: int)
    requires Sound(reg) && Unlink(reg, id, moved, revision, a).1
    ensures var reg' := Unlink(reg, id, moved, revision, a).0;
      && (ConnectionAccess(reg, kind, i, u, t) ==> ConnectionAccess(reg', kind, i, u, t))
      && (ConnectionAccess(reg', kind, i, u, t) != ConnectionAccess(reg, kind, i, u, t) <==>
            Holds(reg, id, kind, i) && Reopened(reg.dir, id, kind, moved, u, t))
  {
    var reg' := Unlink(reg, id, moved, revision, a).0;
    UnlinkKeeps(reg, id, moved, revision, a);
    UnlinkHolds(reg, id, moved, revision, a);
    if b :| Holds(reg, b, kind, i) {
      var b' := if b == id && kind == moved then a else b;
      UnlinkedRecord(reg, id, moved, revision, a, b, kind, i, u, t);
      AccessByRecord(reg, b, kind, i, u, t);
      AccessByRecord(reg', b', kind, i, u, t);
      UnlinkedGrants(reg, id, moved, revision, a, b', u, t);
    }
  }

  /** With direct grants that have no end and a client that is on, or none, no connection's access changes. */
  lemma UnlinkKeepsUnboundedAccess(reg: Reg, id: AppId, moved: Kind, revision: nat, a: AppId, kind: Kind, i: string,
      u: UserId, t: int)
    requires Sound(reg) && Unlink(reg, id, moved, revision, a).1 && ClientOn(reg.dir, reg.dir.apps[id])
    requires forall v :: (id, v) in reg.dir.direct ==> reg.dir.direct[(id, v)].None?
    ensures ConnectionAccess(Unlink(reg, id, moved, revision, a).0, kind, i, u, t) <==>
      ConnectionAccess(reg, kind, i, u, t)
  {
    UnlinkChangesAccessIff(reg, id, moved, revision, a, kind, i, u, t);
  }

  /** For OAuth clients the client itself plays no part: unbounded direct grants suffice. */
  lemma UnlinkKeepsClientAccess(reg: Reg, id: AppId, moved: Kind, revision: nat, a: AppId, c: ClientId, u: UserId,
      t: int)
    requires Sound(reg) && Unlink(reg, id, moved, revision, a).1
    requires forall v :: (id, v) in reg.dir.direct ==> reg.dir.direct[(id, v)].None?
    ensures ClientAccess(Unlink(reg, id, moved, revision, a).0.dir, c, u, t) <==> ClientAccess(reg.dir, c, u, t)
  {
    UnlinkChangesAccessIff(reg, id, moved, revision, a, ClientKind, c, u, t);
    ClientConnectionAccess(reg, c, u, t);
    ClientConnectionAccess(Unlink(reg, id, moved, revision, a).0, c, u, t);
  }

  // ---- two records ----------------------------------------------------------------------------------

  /** One application with a client and a launcher entry, granted to one user. */
  function Example(on: bool, until: Option<int>): Reg {
    var app := App(Some("web"), Some("tile"), None, AssignedOnly, true, DEFAULTS, 1, 0);
    Reg(Directory(map["ann" := User(false, true, None)], map["app" := app], map["web" := on], {}, {},
                  map[("app", "ann") := until], {}, map[], map[], {}, {}), {"tile"}, {})
  }

  lemma ExampleIsSound(on: bool, until: Option<int>)
    ensures Sound(Example(on, until))
    ensures Holds(Example(on, until), "app", ClientKind, "web")
      && Holds(Example(on, until), "app", LauncherKind, "tile")
  {
    var reg := Example(on, until);
    assert forall a, kind, id :: Holds(reg, a, kind, id) <==>
      a == "app" && ((kind == ClientKind && id == "web") || (kind == LauncherKind && id == "tile"));
    assert Holds(reg, "app", ClientKind, "web") && Holds(reg, "app", LauncherKind, "tile");
  }

  /** A grant that ran out at 10: once unlinked, the client lets the user in at 20 again. */
  lemma UnlinkRevivesLapsedGrant()
    ensures var reg := Example(true, Some(10));
      && Sound(reg) && Unlink(reg, "app", ClientKind, 1, "new").1
      && !ConnectionAccess(reg, ClientKind, "web", "ann", 20)
      && ConnectionAccess(Unlink(reg, "app", ClientKind, 1, "new").0, ClientKind, "web", "ann", 20)
  {
    var reg := Example(true, Some(10));
    ExampleIsSound(true, Some(10));
    AccessByRecord(reg, "app", ClientKind, "web", "ann", 20);
    assert Reopened(reg.dir, "app", ClientKind, ClientKind, "ann", 20);
    UnlinkChangesAccessIff(reg, "app", ClientKind, 1, "new", ClientKind, "web", "ann", 20);
  }

  /** A client that is switched off hides the launcher entry; unlinking either shows it, at every instant. */
  lemma UnlinkShowsHiddenLauncher(moved: Kind, t: int)
    requires moved == ClientKind || moved == LauncherKind
    ensures var reg := Example(false, None);
      && Sound(reg) && Unlink(reg, "app", moved, 1, "new").1
      && !ConnectionAccess(reg, LauncherKind, "tile", "ann", t)
      && ConnectionAccess(Unlink(reg, "app", moved, 1, "new").0, LauncherKind, "tile", "ann", t)
  {
    var reg := Example(false, None);
    ExampleIsSound(false, None);
    AccessByRecord(reg, "app", LauncherKind, "tile", "ann", t);
    assert Reopened(reg.dir, "app", LauncherKind, moved, "ann", t);
    UnlinkChangesAccessIff(reg, "app", moved, 1, "new", LauncherKind, "tile", "ann", t);
  }
}
