/** Whether someone who can administer the installation is left. */
module Administrators {
  import opened Optional
  import opened Directory
  import opened Grants
  import opened Expiry
  import opened AccessRuns
  import opened AccessLocality

  /** One account item leaves no administrator exactly when it ends the only one as an ordinary account. */
  lemma EndItemEmptiesIff(st: Store, u: UserId, asAdmin: bool, now: int)
    requires ActiveAdmins(st.dir, now) != {}
    ensures ActiveAdmins(EndItem(st, u, asAdmin, now).dir, now) == {} <==> ActiveAdmins(st.dir, now) == {u} && !asAdmin
  {
    var d, d' := st.dir, EndItem(st, u, asAdmin, now).dir;
    forall v | v != u ensures v in ActiveAdmins(d', now) <==> v in ActiveAdmins(d, now) {
    }
    if u in ActiveAdmins(d, now) && asAdmin && ActiveAdmins(d, now) - {u} == {} {
      assert u in ActiveAdmins(d', now);
    }
    if ActiveAdmins(d, now) != {u} {
      var v :| v in ActiveAdmins(d, now) && v != u;
      assert v in ActiveAdmins(d', now);
    }
  }

  /**
   And that can happen: an account found due as an ordinary one is promoted and kept on, the other
   administrator steps down, and the item, with the role it was found with, ends the last one.
   */
  lemma StaleRoleEndsLastAdministrator() returns (st: Store, cs: seq<Commit>)
    ensures ActiveAdmins(st.dir, 10) != {} && "late" in DueUsers(st.dir, 10) && !st.dir.users["late"].admin
    ensures |cs| == 3 && cs[2] == Commit(EndOp("late", false), 10) && Apply(st, cs[0]).1.Ok?
      && Apply(Apply(st, cs[0]).0, cs[1]).1.Ok?
    ensures ActiveAdmins(Run(st, cs).dir, 10) == {}
  {
    var dir := Directory(map["late" := User(false, true, Some(5)), "root" := User(true, true, None)], map[], map[], {},
      {}, map[], {}, map[], map[], {}, {});
    st := Store(dir, map[], map[], {}, map[]);
    cs := [Commit(UserOp("late", true, true, None, false), 10), Commit(UserOp("root", false, true, None, false), 10),
      Commit(EndOp("late", false), 10)];
    assert ActiveAdmins(dir, 10) == {"root"};
    var st1 := Apply(st, cs[0]).0;
    assert st1.dir.users["late"] == User(true, true, None) && st1.dir.users["root"] == User(true, true, None);
    assert ActiveAdmins(st1.dir, 10) == {"late", "root"};
    assert |{"late", "root"}| == 2;
    var st2 := Apply(st1, cs[1]).0;
    assert ActiveAdmins(st2.dir, 10) == {"late"};
    EndItemEmptiesIff(st2, "late", false, 10);
    assert cs[1..][1..][1..] == [] && cs[1..][0] == cs[1] && cs[1..][1..][0] == cs[2];
    assert Run(st, cs) == EndItem(st2, "late", false, 10);
  }

  lemma AccountsUntouched(st: Store, c: Commit)
    requires !c.op.UserOp? && !c.op.EndOp?
    ensures Apply(st, c).0.dir.users == st.dir.users
  {
    match c.op
    case PolicyOp(b, mode, enabled, revision) =>
    case AssignOp(b, p, on, until) => AssignmentFrame(st, b, p, on, until, c.now);
    case MemberOp(g, v, member, until, admitted) =>
      if SetMembership(st, g, v, member, until, admitted, c.now).1.Ok? {
        MembershipShape(st, g, v, member, until, admitted, c.now);
      }
    case DeleteGroupOp(g, admitted) =>
      if DeleteGroup(st, g, admitted, c.now).1.Ok? {
        DeletionShape(st, g, admitted, c.now);
      }
    case ClientOp(client, enabled, revoke) =>
    case LapseOp(b, v) =>
    case LeaveOp(g, v) => ExpireMemberEffect(st, (g, v));
    case SettleOp =>
    case IssueOp(_, _, _, _, _) =>
    case CodeOp(_, _, _, _) =>
    case SpendOp(_) =>
  }

  lemma EditKeepsAnAdministrator(st: Store, u: UserId, admin: bool, active: bool, endsAt: Option<int>, revoke: bool,
      now: int)
    requires ActiveAdmins(st.dir, now) != {}
    ensures ActiveAdmins(EditUser(st, u, admin, active, endsAt, revoke, now).0.dir, now) != {}
  {
    UserShape(st, u, admin, active, endsAt, revoke, now);
    var (st', r) := EditUser(st, u, admin, active, endsAt, revoke, now);
    var acting := ActiveAdmins(st.dir, now);
    if v :| v in acting && v != u {
      assert v in ActiveAdmins(st'.dir, now);
    } else {
      assert acting == {u};
      assert u in ActiveAdmins(st'.dir, now);
    }
  }

  /**
   Whatever commits: where an administrator could act, one still can, except after an item that ends the
   only one as the ordinary account it was when the pass found it.
   */
  lemma LastAdministratorIff(st: Store, c: Commit)
    requires ActiveAdmins(st.dir, c.now) != {}
    ensures ActiveAdmins(Apply(st, c).0.dir, c.now) == {} <==>
      c.op.EndOp? && !c.op.asAdmin && ActiveAdmins(st.dir, c.now) == {c.op.user}
  {
    match c.op
    case UserOp(u, admin, active, endsAt, revoke) => EditKeepsAnAdministrator(st, u, admin, active, endsAt, revoke,
      c.now);
    case EndOp(u, asAdmin) => EndItemEmptiesIff(st, u, asAdmin, c.now);
    case _ =>
      AccountsUntouched(st, c);
      assert ActiveAdmins(Apply(st, c).0.dir, c.now) == ActiveAdmins(st.dir, c.now);
  }

  /** The administrators whose accounts have no end. */
  function Standing(d: Directory): set<UserId> {
    set u | u in d.users && d.users[u].admin && d.users[u].active && d.users[u].endsAt.None?
  }

  /** The last of them goes, since the guard counts those who can act now, whether or not they have an end. */
  predicate TakesLastStanding(st: Store, c: Commit) {
    match c.op
    case UserOp(u, admin, active, endsAt, _) =>
      && Standing(st.dir) == {u} && |ActiveAdmins(st.dir, c.now)| > 1
      && (!admin || !active || endsAt.Some?) && Live(endsAt, c.now)
    case EndOp(u, asAdmin) => Standing(st.dir) == {u} && (!asAdmin || ActiveAdmins(st.dir, c.now) - {u} != {})
    case _ => false
  }

  lemma OthersStand(d: Directory, u: UserId, row: User)
    ensures Standing(d.(users := d.users[u := row])) - {u} == Standing(d) - {u}
  {
  }

  lemma EditTakesLastIff(st: Store, u: UserId, admin: bool, active: bool, endsAt: Option<int>, revoke: bool, now: int)
    requires Standing(st.dir) != {}
    ensures Standing(EditUser(st, u, admin, active, endsAt, revoke, now).0.dir) == {} <==>
      TakesLastStanding(st, Commit(UserOp(u, admin, active, endsAt, revoke), now))
  {
    UserShape(st, u, admin, active, endsAt, revoke, now);
    OthersStand(st.dir, u, User(admin, active, endsAt));
    var d, d' := st.dir, EditUser(st, u, admin, active, endsAt, revoke, now).0.dir;
    if Standing(d) == {u} {
      assert u in Standing(d) && u in ActiveAdmins(d, now);
      assert Standing(d') - {u} == {};
      assert Standing(d') == {} <==> u !in Standing(d');
    } else {
      var v :| v in Standing(d) && v != u;
      assert v in Standing(d) - {u};
      assert v in Standing(d');
    }
  }

  lemma EndTakesLastIff(st: Store, u: UserId, asAdmin: bool, now: int)
    requires Standing(st.dir) != {}
    ensures Standing(EndItem(st, u, asAdmin, now).dir) == {} <==>
      TakesLastStanding(st, Commit(EndOp(u, asAdmin), now))
  {
    var d, d' := st.dir, EndItem(st, u, asAdmin, now).dir;
    EndShape(st, u, asAdmin, now);
    if d' != d {
      OthersStand(d, u, d'.users[u]);
    }
    if Standing(d) == {u} {
      assert u in Standing(d);
      assert Standing(d') - {u} == {};
      assert Standing(d') == {} <==> u !in Standing(d');
    } else {
      var v :| v in Standing(d) && v != u;
      assert v in Standing(d) - {u};
      assert v in Standing(d');
    }
  }

  lemma LastStandingIff(st: Store, c: Commit)
    requires Standing(st.dir) != {}
    ensures Standing(Apply(st, c).0.dir) == {} <==> TakesLastStanding(st, c)
  {
    match c.op
    case UserOp(u, admin, active, endsAt, revoke) => EditTakesLastIff(st, u, admin, active, endsAt, revoke, c.now);
    case EndOp(u, asAdmin) => EndTakesLastIff(st, u, asAdmin, c.now);
    case _ =>
      AccountsUntouched(st, c);
      assert Standing(Apply(st, c).0.dir) == Standing(st.dir);
  }

  predicate StandsThroughout(st: Store, cs: seq<Commit>)
    decreases |cs|
  {
    Standing(st.dir) != {} && (cs == [] || StandsThroughout(Apply(st, cs[0]).0, cs[1..]))
  }

  predicate NeverTakesLast(st: Store, cs: seq<Commit>)
    decreases |cs|
  {
    cs == [] || (!TakesLastStanding(st, cs[0]) && NeverTakesLast(Apply(st, cs[0]).0, cs[1..]))
  }

  /** Over whole runs: an administrator without an end is there throughout exactly if no commit takes the last. */
  lemma {:induction false} StandsThroughoutIff(st: Store, cs: seq<Commit>)
    requires Standing(st.dir) != {}
    ensures StandsThroughout(st, cs) <==> NeverTakesLast(st, cs)
    decreases |cs|
  {
    if cs != [] {
      LastStandingIff(st, cs[0]);
      if !TakesLastStanding(st, cs[0]) {
        StandsThroughoutIff(Apply(st, cs[0]).0, cs[1..]);
      }
    }
  }

  /** And then someone can act at every instant, however late. */
  lemma {:induction false} SomeoneCanAlwaysAct(st: Store, cs: seq<Commit>, t: int)
    requires Standing(st.dir) != {} && NeverTakesLast(st, cs)
    ensures ActiveAdmins(Run(st, cs).dir, t) != {}
    decreases |cs|
  {
    if cs == [] {
      var u :| u in Standing(st.dir);
      assert u in ActiveAdmins(st.dir, t);
    } else {
      LastStandingIff(st, cs[0]);
      SomeoneCanAlwaysAct(Apply(st, cs[0]).0, cs[1..], t);
    }
  }

  /** Two administrators, each given an end while the other can still act: after it nobody can. */
  lemma EveryAdministratorScheduled() returns (st: Store, cs: seq<Commit>)
    ensures |Standing(st.dir)| == 2
    ensures |cs| == 2 && Apply(st, cs[0]).1.Ok? && Apply(Apply(st, cs[0]).0, cs[1]).1.Ok?
    ensures forall t :: ActiveAdmins(Run(st, cs).dir, t) == {} <==> t >= 20
  {
    var free, ending := User(true, true, None), User(true, true, Some(20));
    var dir := Directory(map["ann" := free, "root" := free], map[], map[], {}, {}, map[], {}, map[], map[], {}, {});
    st := Store(dir, map[], map[], {}, map[]);
    cs := [Commit(UserOp("ann", true, true, Some(20), false), 10),
      Commit(UserOp("root", true, true, Some(20), false), 10)];
    assert Standing(dir) == {"ann", "root"} && ActiveAdmins(dir, 10) == {"ann", "root"};
    var st1 := Apply(st, cs[0]).0;
    assert st1.dir.users == map["ann" := ending, "root" := free];
    assert ActiveAdmins(st1.dir, 10) == {"ann", "root"};
    var st2 := Apply(st1, cs[1]).0;
    assert st2.dir.users == map["ann" := ending, "root" := ending];
    assert cs[1..][0] == cs[1] && cs[1..][1..] == [];
    assert Run(st, cs) == st2;
    forall t ensures ActiveAdmins(st2.dir, t) == {} <==> t >= 20 {
      assert t < 20 ==> "ann" in ActiveAdmins(st2.dir, t);
    }
  }
}
