/** What a connection keeps while the records around it are created, deleted, linked and unlinked. */
module RegistryEffects {
  import opened Optional
  import opened Directory
  import opened Registry

  /** Two records ask the same of a login, say the same about it, and admit alike. */
  predicate SameTerms(x: App, y: App) {
    && x.mode == y.mode && x.enabled == y.enabled && x.settings.auth == y.settings.auth
    && x.settings.legacyRole == y.settings.legacyRole && x.settings.groupsClaim == y.settings.groupsClaim
  }

  /** And everybody has the same roles there. */
  ghost predicate SameRolesAt(d: Directory, a: AppId, d': Directory, a': AppId) {
    forall u, t :: RolesOf(d', a', u, t) == RolesOf(d, a, u, t)
  }

  lemma NoRoles(d: Directory, a: AppId)
    requires !HasRoles(d, a)
    ensures forall u, t :: RolesOf(d, a, u, t) == {}
  {
  }

  /** Dropped records take their roles along and leave the others theirs. */
  lemma DropKeepsRoles(d: Directory, gone: set<AppId>, a: AppId, u: UserId, t: int)
    ensures RolesOf(DropApps(d, gone), a, u, t) == if a in gone then {} else RolesOf(d, a, u, t)
  {
    var d' := DropApps(d, gone);
    forall r | r in d.roles && d.roles[r] == a && a !in gone ensures HoldsRole(d', r, u, t) <==> HoldsRole(d, r, u, t) {
      assert (r, u) in d'.roleUsers <==> (r, u) in d.roleUsers by {
        assert (r, u).0 == r;
      }
      if p :| p in d.roleGroups && p.0 == r && LiveMember(d, p.1, u, t) {
        assert p in d'.roleGroups && LiveMember(d', p.1, u, t);
      }
      if p :| p in d'.roleGroups && p.0 == r && LiveMember(d', p.1, u, t) {
        assert p in d.roleGroups && LiveMember(d, p.1, u, t);
      }
    }
  }

  // ---- linking --------------------------------------------------------------------------------------

  /** The record's roles are untouched by a link that drops another. */
  lemma LinkedRoles(reg: Reg, target: AppId, source: AppId, targetRevision: nat, sourceRevision: nat, a: AppId,
      u: UserId,
      t: int)
    requires Link(reg, target, source, targetRevision, sourceRevision).1
    ensures var d' := Link(reg, target, source, targetRevision, sourceRevision).0.dir;
      RolesOf(d', if a == source then target else a, u, t) == RolesOf(reg.dir, a, u, t)
  {
    var d' := Link(reg, target, source, targetRevision, sourceRevision).0.dir;
    var a', dropped := if a == source then target else a, DropApps(reg.dir, {source});
    DropKeepsRoles(reg.dir, {source}, a', u, t);
    NoRoles(reg.dir, source);
    NoRoles(reg.dir, target);
    forall r ensures HoldsRole(d', r, u, t) <==> HoldsRole(dropped, r, u, t) {
      if p :| p in dropped.roleGroups && p.0 == r && LiveMember(dropped, p.1, u, t) {
        assert LiveMember(d', p.1, u, t);
      }
      if p :| p in d'.roleGroups && p.0 == r && LiveMember(d', p.1, u, t) {
        assert LiveMember(dropped, p.1, u, t);
      }
    }
    assert RolesOf(d', a', u, t) == RolesOf(dropped, a', u, t);
  }

  /** After a link every connection's record asks for, says and admits what its record did before. */
  lemma LinkKeepsTerms(reg: Reg, target: AppId, source: AppId, targetRevision: nat, sourceRevision: nat, kind: Kind,
      i: string, b: AppId, b': AppId)
    requires Sound(reg) && Link(reg, target, source, targetRevision, sourceRevision).1
    requires Holds(reg, b, kind, i) && Holds(Link(reg, target, source, targetRevision, sourceRevision).0, b', kind, i)
    ensures var d' := Link(reg, target, source, targetRevision, sourceRevision).0.dir;
      && b' == (if b == source then target else b) && SameTerms(d'.apps[b'], reg.dir.apps[b])
      && (b != source && b != target ==> d'.apps[b] == reg.dir.apps[b])
      && SameRolesAt(reg.dir, b, d', b')
  {
    LinkHolds(reg, target, source, targetRevision, sourceRevision);
    LinkKeeps(reg, target, source, targetRevision, sourceRevision);
    var reg' := Link(reg, target, source, targetRevision, sourceRevision).0;
    assert Holds(reg', if b == source then target else b, kind, i);
    forall u, t ensures RolesOf(reg'.dir, b', u, t) == RolesOf(reg.dir, b, u, t) {
      LinkedRoles(reg, target, source, targetRevision, sourceRevision, b, u, t);
    }
  }

  /**
   And it is made exactly when both records are current, differ in nothing a connection would inherit,
   have no grants and no roles, and no two connections of a kind.
   */
  lemma LinkAcceptedIff(reg: Reg, target: AppId, source: AppId, targetRevision: nat, sourceRevision: nat)
    ensures Link(reg, target, source, targetRevision, sourceRevision).1 <==>
      && target != source && target in reg.dir.apps && source in reg.dir.apps
      && reg.dir.apps[target].revision == targetRevision && reg.dir.apps[source].revision == sourceRevision
      && SameTerms(reg.dir.apps[target], reg.dir.apps[source])
      && (forall a, u :: a in {target, source} ==> (a, u) !in reg.dir.direct)
      && (forall a, g :: a in {target, source} ==> (a, g) !in reg.dir.granted)
      && (forall r :: r in reg.dir.roles ==> reg.dir.roles[r] !in {target, source})
      && (forall kind :: Ref(reg, target, kind).None? || Ref(reg, source, kind).None?)
  {
    var d := reg.dir;
    forall a ensures Assigned(d, a) <==> (exists u :: (a, u) in d.direct) || (exists g :: (a, g) in d.granted) {
      if p :| p in d.direct && p.0 == a {
        assert (a, p.1) in d.direct;
      }
      if p :| p in d.granted && p.0 == a {
        assert (a, p.1) in d.granted;
      }
      if u :| (a, u) in d.direct {
        assert (a, u).0 == a;
      }
      if g :| (a, g) in d.granted {
        assert (a, g).0 == a;
      }
    }
    if target in d.apps && source in d.apps {
      assert Ref(reg, target, ClientKind) == d.apps[target].client
        && Ref(reg, source, ClientKind) == d.apps[source].client;
      assert Ref(reg, target, LauncherKind) == d.apps[target].launcher
        && Ref(reg, source, LauncherKind) == d.apps[source].launcher;
      assert Ref(reg, target, SystemKind) == d.apps[target].system
        && Ref(reg, source, SystemKind) == d.apps[source].system;
    }
  }

  // ---- unlinking ------------------------------------------------------------------------------------

  /** After an unlink every connection's record is as its record was: settings, mode, switch and roles. */
  lemma UnlinkKeepsTerms(reg: Reg, id: AppId, moved: Kind, revision: nat, a: AppId, kind: Kind, i: string, b: AppId,
      b': AppId)
    requires Sound(reg) && Unlink(reg, id, moved, revision, a).1
    requires Holds(reg, b, kind, i) && Holds(Unlink(reg, id, moved, revision, a).0, b', kind, i)
    ensures var d' := Unlink(reg, id, moved, revision, a).0.dir;
      && b' == (if b == id && kind == moved then a else b)
      && SameTerms(d'.apps[b'], reg.dir.apps[b]) && d'.apps[b'].settings == reg.dir.apps[b].settings
      && (b != id ==> d'.apps[b] == reg.dir.apps[b])
      && SameRolesAt(reg.dir, b, d', b')
  {
    UnlinkHolds(reg, id, moved, revision, a);
    UnlinkKeeps(reg, id, moved, revision, a);
    var reg' := Unlink(reg, id, moved, revision, a).0;
    assert Holds(reg', if b == id && kind == moved then a else b, kind, i);
    NoRoles(reg.dir, id);
    forall u, t ensures RolesOf(reg'.dir, b', u, t) == RolesOf(reg.dir, b, u, t)
    {
      forall r ensures HoldsRole(reg'.dir, r, u, t) <==> HoldsRole(reg.dir, r, u, t) {
      }
    }
  }

  /** And it is made exactly when the record is current, keeps another connection, and has no roles. */
  lemma UnlinkAcceptedIff(reg: Reg, id: AppId, kind: Kind, revision: nat, a: AppId)
    ensures Unlink(reg, id, kind, revision, a).1 <==>
      && id in reg.dir.apps && a !in reg.dir.apps && reg.dir.apps[id].revision == revision
      && Ref(reg, id, kind).Some? && (exists other :: other != kind && Ref(reg, id, other).Some?)
      && (forall r :: r in reg.dir.roles ==> reg.dir.roles[r] != id)
  {
    if id in reg.dir.apps {
      var app := reg.dir.apps[id];
      assert Ref(reg, id, ClientKind) == app.client && Ref(reg, id, LauncherKind) == app.launcher;
      assert Ref(reg, id, SystemKind) == app.system;
    }
  }

  // ---- creating and deleting ------------------------------------------------------------------------

  /** A new connection's record has the defaults, admits nobody yet, and no other record changes. */
  lemma CreatedFresh(reg: Reg, kind: Kind, i: string, on: bool, a: AppId, u: UserId, t: int)
    requires Sound(reg) && Create(reg, kind, i, on, a).1
    ensures var reg' := Create(reg, kind, i, on, a).0;
      && Holds(reg', a, kind, i) && Exists(reg', kind, i) && (kind == ClientKind ==> reg'.dir.clients[i] == on)
      && reg'.dir.apps[a].mode == AssignedOnly && reg'.dir.apps[a].enabled && reg'.dir.apps[a].settings == DEFAULTS
      && !Access(reg'.dir, a, u, t) && RolesOf(reg'.dir, a, u, t) == {}
      && reg'.dir.apps - {a} == reg.dir.apps && SameGrantsElsewhere(reg.dir, reg'.dir)
  {
  }

  predicate SameGrantsElsewhere(d: Directory, d': Directory) {
    && d'.direct == d.direct && d'.granted == d.granted && d'.members == d.members && d'.users == d.users
    && d'.roles == d.roles && d'.roleUsers == d.roleUsers && d'.roleGroups == d.roleGroups
  }

  /** A deleted connection is gone; the others keep their records, with the terms and roles they had. */
  lemma DeleteKeepsTerms(reg: Reg, gone: Kind, j: string, kind: Kind, i: string, b: AppId, b': AppId)
    requires Sound(reg) && Holds(reg, b, kind, i) && Holds(Delete(reg, gone, j), b', kind, i)
    ensures var d' := Delete(reg, gone, j).dir;
      && !Exists(Delete(reg, gone, j), gone, j) && (kind, i) != (gone, j)
      && b' == b && SameTerms(d'.apps[b], reg.dir.apps[b]) && d'.apps[b].settings == reg.dir.apps[b].settings
      && SameRolesAt(reg.dir, b, d', b)
  {
    var reg' := Delete(reg, gone, j);
    DeleteKeeps(reg, gone, j);
    var released := DropConnection(reg, gone, j).dir.(apps := Released(reg.dir.apps, gone, j));
    assert Holds(reg, b', kind, i);
    forall u, t ensures RolesOf(reg'.dir, b, u, t) == RolesOf(reg.dir, b, u, t) {
      DropKeepsRoles(released, Empty(released.apps), b, u, t);
      forall r ensures HoldsRole(released, r, u, t) <==> HoldsRole(reg.dir, r, u, t) {
      }
      assert RolesOf(released, b, u, t) == RolesOf(reg.dir, b, u, t);
    }
  }

  /** Creating one connection leaves the others' records alone. */
  lemma CreateKeepsTerms(reg: Reg, made: Kind, j: string, on: bool, a: AppId, kind: Kind, i: string, b: AppId,
      b': AppId)
    requires Sound(reg) && Holds(reg, b, kind, i) && Holds(Create(reg, made, j, on, a).0, b', kind, i)
    ensures var d' := Create(reg, made, j, on, a).0.dir;
      b' == b && d'.apps[b] == reg.dir.apps[b] && SameRolesAt(reg.dir, b, d', b)
  {
    var reg' := Create(reg, made, j, on, a).0;
    CreateKeeps(reg, made, j, on, a);
    assert Holds(reg', b, kind, i);
    forall u, t ensures RolesOf(reg'.dir, b, u, t) == RolesOf(reg.dir, b, u, t) {
      forall r ensures HoldsRole(reg'.dir, r, u, t) <==> HoldsRole(reg.dir, r, u, t) {
      }
    }
  }

  // ---- whole runs -----------------------------------------------------------------------------------

  lemma StepKeepsTerms(reg: Reg, op: Op, kind: Kind, i: string, b: AppId, b': AppId)
    requires Sound(reg) && Holds(reg, b, kind, i) && Holds(Step(reg, op), b', kind, i)
    ensures SameTerms(Step(reg, op).dir.apps[b'], reg.dir.apps[b]) && SameRolesAt(reg.dir, b, Step(reg, op).dir, b')
  {
    match op
    case CreateOp(made, j, on, a) => CreateKeepsTerms(reg, made, j, on, a, kind, i, b, b');
    case DeleteOp(gone, j) => DeleteKeepsTerms(reg, gone, j, kind, i, b, b');
    case LinkOp(t, s, tr, sr) =>
      if Link(reg, t, s, tr, sr).1 {
        LinkKeepsTerms(reg, t, s, tr, sr, kind, i, b, b');
      }
    case UnlinkOp(id, moved, revision, a) =>
      if Unlink(reg, id, moved, revision, a).1 {
        UnlinkKeepsTerms(reg, id, moved, revision, a, kind, i, b, b');
      }
  }

  lemma StepHolds(reg: Reg, op: Op, kind: Kind, i: string, b: AppId) returns (b': AppId)
    requires Sound(reg) && Holds(reg, b, kind, i) && op != DeleteOp(kind, i)
    ensures Holds(Step(reg, op), b', kind, i)
  {
    b' := b;
    match op
    case CreateOp(made, j, on, a) =>
    case DeleteOp(gone, j) =>
    case LinkOp(t, s, tr, sr) =>
      if Link(reg, t, s, tr, sr).1 {
        LinkHolds(reg, t, s, tr, sr);
        b' := if b == s then t else b;
      }
    case UnlinkOp(id, moved, revision, a) =>
      if Unlink(reg, id, moved, revision, a).1 {
        UnlinkHolds(reg, id, moved, revision, a);
        b' := if b == id && kind == moved then a else b;
      }
  }

  /**
   Wherever a run of creations, deletions, links and unlinks moves a connection, until it is deleted its
   record asks the same of a login, says the same about it, admits alike and gives the same roles.
   */
  lemma {:induction false} ConnectionKeepsItsTerms(reg: Reg, ops: seq<Op>, kind: Kind, i: string, b: AppId)
      returns (b': AppId)
    requires Sound(reg) && Holds(reg, b, kind, i) && DeleteOp(kind, i) !in ops
    ensures Holds(Run(reg, ops), b', kind, i)
    ensures SameTerms(Run(reg, ops).dir.apps[b'], reg.dir.apps[b]) && SameRolesAt(reg.dir, b, Run(reg, ops).dir, b')
    decreases |ops|
  {
    b' := b;
    if ops != [] {
      var mid := StepHolds(reg, ops[0], kind, i, b);
      StepKeepsTerms(reg, ops[0], kind, i, b, mid);
      StepStaysSound(reg, ops[0]);
      b' := ConnectionKeepsItsTerms(Step(reg, ops[0]), ops[1..], kind, i, mid);
    }
  }

  lemma StepStaysSound(reg: Reg, op: Op)
    requires Sound(reg)
    ensures Sound(Step(reg, op))
  {
    RunStaysSound(reg, [op]);
    assert [op][1..] == [];
    assert Run(Step(reg, op), []) == Step(reg, op);
  }

  // ---- the lock ---------------------------------------------------------------------------------------

  /** The revision never falls, and while it stays the record does. */
  predicate RecordFollows(x: App, y: App) {
    x.revision <= y.revision && (x.revision == y.revision ==> x == y)
  }

  /** The op makes a record of this id. */
  predicate Makes(op: Op, a: AppId) {
    (op.CreateOp? && op.app == a) || (op.UnlinkOp? && op.newApp == a)
  }

  lemma StepFollows(reg: Reg, op: Op, a: AppId)
    requires a in reg.dir.apps && a in Step(reg, op).dir.apps
    ensures RecordFollows(reg.dir.apps[a], Step(reg, op).dir.apps[a])
  {
  }

  lemma StepMakesNone(reg: Reg, op: Op, a: AppId)
    requires a !in reg.dir.apps && !Makes(op, a)
    ensures a !in Step(reg, op).dir.apps
  {
  }

  lemma {:induction false} GoneStaysGone(reg: Reg, ops: seq<Op>, a: AppId)
    requires a !in reg.dir.apps && forall i :: 0 <= i < |ops| ==> !Makes(ops[i], a)
    ensures a !in Run(reg, ops).dir.apps
    decreases |ops|
  {
    if ops != [] {
      StepMakesNone(reg, ops[0], a);
      GoneStaysGone(Step(reg, ops[0]), ops[1..], a);
    }
  }

  lemma {:induction false} RunFollows(reg: Reg, ops: seq<Op>, a: AppId)
    requires a in reg.dir.apps && a in Run(reg, ops).dir.apps && forall i :: 0 <= i < |ops| ==> !Makes(ops[i], a)
    ensures RecordFollows(reg.dir.apps[a], Run(reg, ops).dir.apps[a])
    decreases |ops|
  {
    if ops != [] {
      var next := Step(reg, ops[0]);
      if a !in next.dir.apps {
        GoneStaysGone(next, ops[1..], a);
      }
      StepFollows(reg, ops[0], a);
      RunFollows(next, ops[1..], a);
    }
  }

  /**
   A link or unlink made on records as read is accepted after any run of other steps only if those left
   the records as they were; ids are random, so none is made again.
   */
  lemma AcceptedChangesAreCurrent(reg: Reg, ops: seq<Op>, target: AppId, source: AppId, kind: Kind, a: AppId)
    requires target in reg.dir.apps && source in reg.dir.apps
    requires forall i :: 0 <= i < |ops| ==> !Makes(ops[i], target) && !Makes(ops[i], source)
    ensures var d, later := reg.dir, Run(reg, ops);
      && (Link(later, target, source, d.apps[target].revision, d.apps[source].revision).1 ==>
            && target in later.dir.apps && later.dir.apps[target] == d.apps[target]
            && source in later.dir.apps && later.dir.apps[source] == d.apps[source])
      && (Unlink(later, target, kind, d.apps[target].revision, a).1 ==>
            target in later.dir.apps && later.dir.apps[target] == d.apps[target])
  {
    var later := Run(reg, ops);
    if target in later.dir.apps {
      RunFollows(reg, ops, target);
    }
    if source in later.dir.apps {
      RunFollows(reg, ops, source);
    }
  }

  // ---- the store ------------------------------------------------------------------------------------

  class AppRegistry {
    var reg: Reg

    constructor (dir: Directory)
      requires dir.apps == map[] && dir.clients == map[] && dir.direct == map[] && dir.granted == {}
        && dir.roles == map[]
      ensures reg == Reg(dir, {}, {}) && Sound(reg)
    {
      reg := Reg(dir, {}, {});
    }

    method LinkAppRecords(target: AppId, source: AppId, targetRevision: nat, sourceRevision: nat) returns (ok: bool)
      requires Sound(reg)
      modifies this
      ensures (reg, ok) == Link(old(reg), target, source, targetRevision, sourceRevision)
      ensures Sound(reg) && (!ok ==> reg == old(reg))
      ensures ok ==> source !in reg.dir.apps && SameConnections(old(reg), reg) && TermsKept(old(reg), reg)
    {
      if Link(reg, target, source, targetRevision, sourceRevision).1 {
        LinkKeepsAllTerms(reg, target, source, targetRevision, sourceRevision);
      }
      LinkKeeps(reg, target, source, targetRevision, sourceRevision);
      if target == source || target !in reg.dir.apps || source !in reg.dir.apps {
        return false;
      }
      var t, s := reg.dir.apps[target], reg.dir.apps[source];
      if t.revision != targetRevision || s.revision != sourceRevision || !Linkable(reg.dir, target, source) {
        return false;
      }
      var d := DropApps(reg.dir, {source});
      d := d.(apps := d.apps[target := Joined(t, s)]);
      reg := reg.(dir := d);
      return true;
    }

    method UnlinkAppRecord(id: AppId, kind: Kind, revision: nat, newId: AppId) returns (ok: bool)
      requires Sound(reg)
      modifies this
      ensures (reg, ok) == Unlink(old(reg), id, kind, revision, newId)
      ensures Sound(reg) && (!ok ==> reg == old(reg))
      ensures ok ==> Ref(reg, newId, kind) == Ref(old(reg), id, kind) && Ref(reg, id, kind).None?
      ensures ok ==> SameConnections(old(reg), reg) && TermsKept(old(reg), reg) && SettingsKept(old(reg), reg)
    {
      if Unlink(reg, id, kind, revision, newId).1 {
        UnlinkKeepsAllTerms(reg, id, kind, revision, newId);
      }
      UnlinkKeeps(reg, id, kind, revision, newId);
      var d := reg.dir;
      if id !in d.apps || newId in d.apps || d.apps[id].revision != revision {
        return false;
      }
      var app := d.apps[id];
      if Refs(app) < 2 || RefOf(app, kind).None? || HasRoles(d, id) {
        return false;
      }
      var apps := d.apps[id := SetRef(app, kind, None).(revision := app.revision + 1)];
      apps := apps[newId := Split(app, kind)];
      reg := reg.(dir := d.(apps := apps, direct := CopiedDirect(d, id, newId), granted := CopiedGroups(d, id, newId)));
      return true;
    }
  }

  predicate SameConnections(reg: Reg, reg': Reg) {
    reg'.dir.clients == reg.dir.clients && reg'.launchers == reg.launchers && reg'.systems == reg.systems
  }

  /** Every connection's record has the terms its record had, and gives the same roles. */
  ghost predicate TermsKept(reg: Reg, reg': Reg) {
    forall b, b', kind, i :: Holds(reg, b, kind, i) && Holds(reg', b', kind, i) ==>
      SameTerms(reg'.dir.apps[b'], reg.dir.apps[b]) && SameRolesAt(reg.dir, b, reg'.dir, b')
  }

  ghost predicate SettingsKept(reg: Reg, reg': Reg) {
    forall b, b', kind, i :: Holds(reg, b, kind, i) && Holds(reg', b', kind, i) ==>
      reg'.dir.apps[b'].settings == reg.dir.apps[b].settings
  }

  lemma LinkKeepsAllTerms(reg: Reg, target: AppId, source: AppId, targetRevision: nat, sourceRevision: nat)
    requires Sound(reg) && Link(reg, target, source, targetRevision, sourceRevision).1
    ensures TermsKept(reg, Link(reg, target, source, targetRevision, sourceRevision).0)
  {
    var reg' := Link(reg, target, source, targetRevision, sourceRevision).0;
    forall b, b', kind, i | Holds(reg, b, kind, i) && Holds(reg', b', kind, i)
      ensures SameTerms(reg'.dir.apps[b'], reg.dir.apps[b]) && SameRolesAt(reg.dir, b, reg'.dir, b')
    {
      LinkKeepsTerms(reg, target, source, targetRevision, sourceRevision, kind, i, b, b');
    }
  }

  lemma UnlinkKeepsAllTerms(reg: Reg, id: AppId, moved: Kind, revision: nat, a: AppId)
    requires Sound(reg) && Unlink(reg, id, moved, revision, a).1
    ensures var reg' := Unlink(reg, id, moved, revision, a).0; TermsKept(reg, reg') && SettingsKept(reg, reg')
  {
    var reg' := Unlink(reg, id, moved, revision, a).0;
    forall b, b', kind, i | Holds(reg, b, kind, i) && Holds(reg', b', kind, i)
      ensures SameTerms(reg'.dir.apps[b'], reg.dir.apps[b]) && SameRolesAt(reg.dir, b, reg'.dir, b')
      ensures reg'.dir.apps[b'].settings == reg.dir.apps[b].settings
    {
      UnlinkKeepsTerms(reg, id, moved, revision, a, kind, i, b, b');
    }
  }
}
