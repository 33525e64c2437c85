/**
 Device-token ownership as a concurrent protocol.

 A send runs `claimTokenForSend`, the provider call and `settleToken`. Each coordinator call is
 one atomic turn; everything between two turns interleaves with every other send. A run is a
 sequence of such events, over any number of sends and keys.

 `era` counts takeovers, `displaced` the keys a takeover removed, and `inherited` says that the
 current claim was adopted rather than taken; none of the three influences a decision.
 */
module TokenProtocol {
  import opened Optional
  import opened Coordinator

  const TAKEOVER_GRACE_MS := 60_000

  datatype Phase =
    | Calling
    | Asked(owner: Key, claimedAt: int)
    | Swapping(from: Key)
    | Denied
    | Sending(era: nat)
    | Sent(era: nat, delivered: bool)
    | Settled(era: nat, delivered: bool)

  datatype Send = Send(key: Key, phase: Phase)

  datatype System = System(
    store: Storage,
    sends: seq<Send>,
    revoked: set<Key>,
    era: nat,
    displaced: set<Key>,
    inherited: bool)

  datatype Event =
    | Begin(key: Key)
    | Claim(i: nat, legacy: Option<Key>, now: int)
    | Judge(i: nat, now: int)
    | Swap(i: nat, now: int)
    | Deliver(i: nat, ok: bool)
    | Settle(i: nat)
    | Revoke(key: Key)

  /** Storage nobody has touched, or storage an earlier version of the coordinator left behind. */
  predicate InitialStore(s: Storage) {
    && (!s.seeded ==> s.owner.None?)
    && s.confirmed.None?
    && s.inflight.None?
  }

  function Initial(s: Storage): System {
    System(s, [], {}, 0, {}, s.owner.Some?)
  }

  predicate Enabled(sys: System, e: Event) {
    match e
    case Begin(key) => key !in sys.revoked
    case Revoke(_) => true
    case Claim(i, _, _) => i < |sys.sends| && sys.sends[i].phase.Calling?
    case Judge(i, _) => i < |sys.sends| && sys.sends[i].phase.Asked?
    case Swap(i, _) => i < |sys.sends| && sys.sends[i].phase.Swapping?
    case Deliver(i, _) => i < |sys.sends| && sys.sends[i].phase.Sending?
    case Settle(i) => i < |sys.sends| && sys.sends[i].phase.Sent?
  }

  function Enter(sys: System, i: nat, phase: Phase): seq<Send>
    requires i < |sys.sends|
  {
    sys.sends[i := sys.sends[i].(phase := phase)]
  }

  /** The owner a claim turn sees, after any adoption of the legacy owner. */
  function OwnerSeen(sys: System, e: Event): Option<Key> {
    if e.Claim? then Seed(sys.store, e.legacy, e.now).1 else sys.store.owner
  }

  function TakeoverFrom(sys: System, e: Event): Option<Key>
    requires Enabled(sys, e) && (e.Claim? || e.Swap?)
  {
    if e.Swap? then Some(sys.sends[e.i].phase.from) else None
  }

  /** The turn replaces the claim instead of riding it. */
  predicate TakesClaim(sys: System, e: Event)
    requires Enabled(sys, e)
  {
    && (e.Claim? || e.Swap?)
    && var owner := OwnerSeen(sys, e);
       owner.None? || (owner.value != sys.sends[e.i].key && TakeoverFrom(sys, e) == owner)
  }

  function ClaimStep(sys: System, e: Event): System
    requires Enabled(sys, e) && (e.Claim? || e.Swap?)
  {
    var key, owner := sys.sends[e.i].key, OwnerSeen(sys, e);
    var (store, r) := ClaimTurn(sys.store, key, if e.Claim? then e.legacy else None, TakeoverFrom(sys, e), e.now);
    var takeover := TakesClaim(sys, e) && owner.Some?;
    var era := if takeover then sys.era + 1 else sys.era;
    var phase := if r.owner == key then Sending(era) else if e.Claim? then Asked(r.owner, r.claimedAt) else Denied;
    System(store, Enter(sys, e.i, phase), sys.revoked, era,
           if takeover then sys.displaced + {owner.value} else sys.displaced,
           if TakesClaim(sys, e) then false else sys.inherited || (!sys.store.seeded && owner.Some?))
  }

  function Step(sys: System, e: Event): System
    requires Enabled(sys, e)
  {
    match e
    case Begin(key) => sys.(sends := sys.sends + [Send(key, Calling)])
    case Revoke(key) => sys.(revoked := sys.revoked + {key})
    case Judge(i, now) =>
      var Asked(owner, claimedAt) := sys.sends[i].phase;
      if now - claimedAt < TAKEOVER_GRACE_MS || owner !in sys.revoked
      then sys.(sends := Enter(sys, i, Denied))
      else sys.(sends := Enter(sys, i, Swapping(owner)))
    case Deliver(i, ok) => sys.(sends := Enter(sys, i, Sent(sys.sends[i].phase.era, ok)))
    case Settle(i) =>
      var Sent(era, delivered) := sys.sends[i].phase;
      var (store, _) := SettleTurn(sys.store, sys.sends[i].key, delivered);
      sys.(store := store, sends := Enter(sys, i, Settled(era, delivered)))
    case Claim(_, _, _) => ClaimStep(sys, e)
    case Swap(_, _) => ClaimStep(sys, e)
  }

  predicate Runs(sys: System, es: seq<Event>)
    decreases |es|
  {
    es == [] || (Enabled(sys, es[0]) && Runs(Step(sys, es[0]), es[1..]))
  }

  function Run(sys: System, es: seq<Event>): System
    requires Runs(sys, es)
    decreases |es|
  {
    if es == [] then sys else Run(Step(sys, es[0]), es[1..])
  }

  // ---- what the count must equal --------------------------------------------------------------------

  predicate Outstanding(s: Send) {
    s.phase.Sending? || s.phase.Sent?
  }

  function Count(sends: seq<Send>, key: Key): nat {
    if sends == [] then 0
    else (if sends[0].key == key && Outstanding(sends[0]) then 1 else 0) + Count(sends[1..], key)
  }

  /** The stored in-flight count is the number of the owner's unsettled sends. */
  predicate InflightExact(sys: System) {
    sys.store.owner.Some? ==> InflightOf(sys.store) == Count(sys.sends, sys.store.owner.value)
  }

  /** The condition on a claim turn: a key never takes a claim while it has unsettled sends. */
  predicate Disciplined(sys: System, e: Event)
    requires Enabled(sys, e)
  {
    TakesClaim(sys, e) ==> Count(sys.sends, sys.sends[e.i].key) == 0
  }

  predicate DisciplinedRun(sys: System, es: seq<Event>)
    requires Runs(sys, es)
    decreases |es|
  {
    es == [] || (Disciplined(sys, es[0]) && DisciplinedRun(Step(sys, es[0]), es[1..]))
  }

  predicate ExactRun(sys: System, es: seq<Event>)
    requires Runs(sys, es)
    decreases |es|
  {
    InflightExact(sys) && (es == [] || ExactRun(Step(sys, es[0]), es[1..]))
  }

  predicate Claimed(s: Send) {
    s.phase.Sending? || s.phase.Sent? || s.phase.Settled?
  }

  /** A claimed send that has not settled as a failure. */
  predicate Holding(s: Send) {
    Outstanding(s) || (s.phase.Settled? && s.phase.delivered)
  }

  predicate SameEra(a: Send, b: Send) {
    Holding(a) && Holding(b) && a.phase.era == b.phase.era
  }

  predicate DeliveredIn(s: Send, era: nat) {
    s.phase.Settled? && s.phase.delivered && s.phase.era == era
  }

  predicate Core(sys: System) {
    var store, sends := sys.store, sys.sends;
    && InflightExact(sys)
    && (!store.seeded ==> store.owner.None? && InflightOf(store) == 0 && forall i :: 0 <= i < |sends| ==>
       sends[i].phase.Calling?)
    && (sys.inherited ==> store.owner.Some? && Confirmed(store))
    // every claimed send carries an era that has begun; in the current one the owner holds all
    && (forall i :: 0 <= i < |sends| && Claimed(sends[i]) ==> sends[i].phase.era <= sys.era)
    && (forall i :: 0 <= i < |sends| && Holding(sends[i]) && sends[i].phase.era == sys.era ==>
          store.owner == Some(sends[i].key))
    // unsettled sends belong to the owner's current claim or to a displaced key
    && (forall i :: 0 <= i < |sends| && Outstanding(sends[i]) ==>
          if store.owner == Some(sends[i].key) then sends[i].phase.era == sys.era
          else sends[i].key in sys.displaced)
    // confirmed exactly when something delivered under the claim, or the claim was adopted
    && (store.owner.Some? ==>
          (Confirmed(store) <==> sys.inherited || exists i :: 0 <= i < |sends| && DeliveredIn(sends[i], sys.era)))
    && (store.owner.Some? && !Confirmed(store) ==> Count(sends, store.owner.value) > 0)
    // a takeover is only ever attempted against a key already seen revoked
    && (forall i :: 0 <= i < |sends| && sends[i].phase.Swapping? ==> sends[i].phase.from in sys.revoked)
  }

  /** Everything still held in one era, or delivered in it, was claimed by one key. */
  predicate OneKeyPerEra(sends: seq<Send>) {
    forall i, j :: 0 <= i < |sends| && 0 <= j < |sends| && SameEra(sends[i], sends[j]) ==> sends[i].key == sends[j].key
  }

  predicate Inv(sys: System) {
    Core(sys) && OneKeyPerEra(sys.sends)
  }

  // ---- counting lemmas ------------------------------------------------------------------------------

  function Unit(s: Send, key: Key): nat {
    if s.key == key && Outstanding(s) then 1 else 0
  }

  lemma {:induction false} CountUpdate(sends: seq<Send>, i: nat, s: Send, key: Key)
    requires i < |sends|
    ensures Count(sends[i := s], key) + Unit(sends[i], key) == Count(sends, key) + Unit(s, key)
  {
    if i == 0 {
      assert sends[0 := s][1..] == sends[1..];
    } else {
      assert sends[i := s][1..] == sends[1..][i - 1 := s];
      CountUpdate(sends[1..], i - 1, s, key);
    }
  }

  lemma {:induction false} CountAppend(sends: seq<Send>, s: Send, key: Key)
    ensures Count(sends + [s], key) == Count(sends, key) + Unit(s, key)
  {
    if sends == [] {
      assert sends + [s] == [s];
    } else {
      assert (sends + [s])[1..] == sends[1..] + [s];
      CountAppend(sends[1..], s, key);
    }
  }

  lemma {:induction false} CountWitness(sends: seq<Send>, key: Key)
    ensures Count(sends, key) > 0 <==> exists i :: 0 <= i < |sends| && sends[i].key == key && Outstanding(sends[i])
  {
    if sends != [] {
      CountWitness(sends[1..], key);
      if i :| 0 <= i < |sends| && sends[i].key == key && Outstanding(sends[i]) {
        if i > 0 {
          assert sends[1..][i - 1] == sends[i];
        }
      }
    }
  }

  // ---- every event keeps the invariant, under the discipline ----------------------------------------

  lemma InitialInv(s: Storage)
    requires InitialStore(s)
    ensures Inv(Initial(s))
  {
  }

  lemma BeginKeepsCore(sys: System, key: Key)
    requires Core(sys) && Enabled(sys, Begin(key))
    ensures Core(Step(sys, Begin(key)))
  {
    var next := Step(sys, Begin(key));
    if sys.store.owner.Some? {
      CountAppend(sys.sends, Send(key, Calling), sys.store.owner.value);
    }
    if i :| 0 <= i < |sys.sends| && DeliveredIn(sys.sends[i], sys.era) {
      assert DeliveredIn(next.sends[i], next.era);
    }
  }

  lemma DeliverKeepsCore(sys: System, i: nat, ok: bool)
    requires Core(sys) && Enabled(sys, Deliver(i, ok))
    ensures Core(Step(sys, Deliver(i, ok)))
  {
    var next := Step(sys, Deliver(i, ok));
    if sys.store.owner.Some? {
      CountUpdate(sys.sends, i, next.sends[i], sys.store.owner.value);
    }
    if k :| 0 <= k < |sys.sends| && DeliveredIn(sys.sends[k], sys.era) {
      assert DeliveredIn(next.sends[k], next.era);
    }
  }

  /** A send outside the claim moves on without touching it. */
  lemma BystanderKeepsCore(sys: System, i: nat, phase: Phase, stamp: Option<int>)
    requires Core(sys) && i < |sys.sends| && sys.store.seeded
    requires !Claimed(sys.sends[i]) && !Claimed(Send(sys.sends[i].key, phase))
    requires phase.Swapping? ==> phase.from in sys.revoked
    ensures Core(sys.(store := sys.store.(claimedAt := stamp), sends := Enter(sys, i, phase)))
  {
    var next := sys.(store := sys.store.(claimedAt := stamp), sends := Enter(sys, i, phase));
    if sys.store.owner.Some? {
      CountUpdate(sys.sends, i, next.sends[i], sys.store.owner.value);
    }
    if k :| 0 <= k < |sys.sends| && DeliveredIn(sys.sends[k], sys.era) {
      assert DeliveredIn(next.sends[k], next.era);
    }
  }

  lemma JudgeKeepsCore(sys: System, i: nat, now: int)
    requires Core(sys) && Enabled(sys, Judge(i, now))
    ensures Core(Step(sys, Judge(i, now)))
  {
    var next := Step(sys, Judge(i, now));
    BystanderKeepsCore(sys, i, next.sends[i].phase, sys.store.claimedAt);
    assert next
      == sys.(store := sys.store.(claimedAt := sys.store.claimedAt), sends := Enter(sys, i, next.sends[i].phase));
  }

  lemma SettleKeepsCore(sys: System, i: nat)
    requires Core(sys) && Enabled(sys, Settle(i))
    ensures Core(Step(sys, Settle(i)))
  {
    var next := Step(sys, Settle(i));
    if sys.store.owner.Some? {
      CountUpdate(sys.sends, i, next.sends[i], sys.store.owner.value);
      CountWitness(sys.sends, sys.store.owner.value);
      CountWitness(next.sends, sys.store.owner.value);
    }
    if k :| 0 <= k < |sys.sends| && DeliveredIn(sys.sends[k], sys.era) {
      assert DeliveredIn(next.sends[k], next.era);
    }
    if sys.store.owner == Some(sys.sends[i].key) && sys.sends[i].phase.delivered {
      assert DeliveredIn(next.sends[i], next.era);
    }
  }

  /** The state in which a claim turn decides: the legacy owner adopted, if it ever will be. */
  function Adopted(sys: System, e: Event): System {
    if e.Claim? && !sys.store.seeded
    then sys.(store := Seed(sys.store, e.legacy, e.now).0, inherited := e.legacy.Some?)
    else sys
  }

  lemma AdoptionKeeps(sys: System, e: Event)
    requires Core(sys) && Enabled(sys, e) && (e.Claim? || e.Swap?)
    ensures Core(Adopted(sys, e)) && Adopted(sys, e).store.seeded
    ensures Step(sys, e) == Step(Adopted(sys, e), e)
    ensures TakesClaim(sys, e) == TakesClaim(Adopted(sys, e), e)
  {
    if e.Claim? && !sys.store.seeded && e.legacy.Some? {
      CountWitness(sys.sends, e.legacy.value);
    }
  }

  lemma RideKeepsCore(sys: System, i: nat, stamp: Option<int>)
    requires Core(sys) && sys.store.seeded && i < |sys.sends| && !Claimed(sys.sends[i])
    requires sys.store.owner == Some(sys.sends[i].key)
    ensures Core(sys.(store := sys.store.(inflight := Some(InflightOf(sys.store) + 1), claimedAt := stamp),
                     sends := Enter(sys, i, Sending(sys.era))))
  {
    var next := sys.(store := sys.store.(inflight := Some(InflightOf(sys.store) + 1), claimedAt := stamp),
                     sends := Enter(sys, i, Sending(sys.era)));
    CountUpdate(sys.sends, i, next.sends[i], sys.sends[i].key);
    if k :| 0 <= k < |sys.sends| && DeliveredIn(sys.sends[k], sys.era) {
      assert DeliveredIn(next.sends[k], sys.era);
    }
  }

  function Taken(sys: System, i: nat, now: int): System
    requires i < |sys.sends|
  {
    var key, owner := sys.sends[i].key, sys.store.owner;
    var era := if owner.Some? then sys.era + 1 else sys.era;
    System(TakeClaim(sys.store, key, now), Enter(sys, i, Sending(era)), sys.revoked, era,
           if owner.Some? then sys.displaced + {owner.value} else sys.displaced, false)
  }

  lemma TakeKeepsCore(sys: System, i: nat, now: int)
    requires Core(sys) && sys.store.seeded && i < |sys.sends| && !Claimed(sys.sends[i])
    requires sys.store.owner != Some(sys.sends[i].key) && Count(sys.sends, sys.sends[i].key) == 0
    ensures Core(Taken(sys, i, now))
  {
    var next, key := Taken(sys, i, now), sys.sends[i].key;
    CountUpdate(sys.sends, i, next.sends[i], key);
    CountWitness(sys.sends, key);
    assert forall k :: 0 <= k < |sys.sends| && k != i ==> next.sends[k] == sys.sends[k];
    assert forall k :: 0 <= k < |sys.sends| && k != i && Holding(sys.sends[k]) ==> sys.sends[k].phase.era < next.era;
  }

  /** The three shapes a claim turn can have once any adoption is done. */
  lemma ClaimShape(sys: System, e: Event)
    requires sys.store.seeded && Enabled(sys, e) && (e.Claim? || e.Swap?)
    ensures var next, owner, key := Step(sys, e), sys.store.owner, sys.sends[e.i].key;
      if TakesClaim(sys, e) then owner != Some(key) && next == Taken(sys, e.i, e.now)
      else if owner == Some(key) then
        next == sys.(store := sys.store.(inflight := Some(InflightOf(sys.store) + 1),
          claimedAt := next.store.claimedAt),
                     sends := Enter(sys, e.i, Sending(sys.era)))
      else
        && !Claimed(next.sends[e.i]) && !next.sends[e.i].phase.Swapping?
        && next == sys.(store := sys.store.(claimedAt := next.store.claimedAt),
                        sends := Enter(sys, e.i, next.sends[e.i].phase))
  {
  }

  lemma ClaimKeepsCore(sys: System, e: Event)
    requires Core(sys) && Enabled(sys, e) && (e.Claim? || e.Swap?) && Disciplined(sys, e)
    ensures Core(Step(sys, e))
  {
    AdoptionKeeps(sys, e);
    var ready := Adopted(sys, e);
    ReadyClaimKeepsCore(ready, e);
  }

  lemma ReadyClaimKeepsCore(sys: System, e: Event)
    requires Core(sys) && sys.store.seeded && Enabled(sys, e) && (e.Claim? || e.Swap?) && Disciplined(sys, e)
    ensures Core(Step(sys, e))
  {
    ClaimShape(sys, e);
    var next := Step(sys, e);
    if TakesClaim(sys, e) {
      TakeKeepsCore(sys, e.i, e.now);
    } else if sys.store.owner == Some(sys.sends[e.i].key) {
      RideKeepsCore(sys, e.i, next.store.claimedAt);
    } else {
      BystanderKeepsCore(sys, e.i, next.sends[e.i].phase, next.store.claimedAt);
    }
  }

  lemma StepKeepsCore(sys: System, e: Event)
    requires Core(sys) && Enabled(sys, e) && Disciplined(sys, e)
    ensures Core(Step(sys, e))
  {
    match e
    case Begin(key) => BeginKeepsCore(sys, key);
    case Revoke(key) =>
    case Judge(i, now) => JudgeKeepsCore(sys, i, now);
    case Deliver(i, ok) => DeliverKeepsCore(sys, i, ok);
    case Settle(i) => SettleKeepsCore(sys, i);
    case Claim(_, _, _) => ClaimKeepsCore(sys, e);
    case Swap(_, _) => ClaimKeepsCore(sys, e);
  }

  /** An event about one send changes that send only, and holding begins only under the owner. */
  lemma StepTouchesOne(sys: System, e: Event)
    requires Enabled(sys, e) && !e.Begin? && !e.Revoke?
    ensures var next, i := Step(sys, e), e.i;
      && next.sends == sys.sends[i := next.sends[i]] && next.sends[i].key == sys.sends[i].key
      && (Holding(next.sends[i]) ==>
            || (Holding(sys.sends[i]) && sys.sends[i].phase.era == next.sends[i].phase.era)
            || (next.sends[i].phase.era == next.era && next.store.owner == Some(next.sends[i].key)))
  {
  }

  lemma StepKeeps(sys: System, e: Event)
    requires Inv(sys) && Enabled(sys, e) && Disciplined(sys, e)
    ensures Inv(Step(sys, e))
  {
    StepKeepsCore(sys, e);
    StepKeepsEras(sys, e);
  }

  lemma StepKeepsEras(sys: System, e: Event)
    requires Enabled(sys, e) && OneKeyPerEra(sys.sends) && Core(Step(sys, e))
    ensures OneKeyPerEra(Step(sys, e).sends)
  {
    var next := Step(sys, e);
    if e.Begin? || e.Revoke? {
      assert forall k :: 0 <= k < |next.sends| && Holding(next.sends[k]) ==>
        k < |sys.sends| && next.sends[k] == sys.sends[k];
    } else {
      StepTouchesOne(sys, e);
      assert forall k :: 0 <= k < |sys.sends| && k != e.i ==> next.sends[k] == sys.sends[k];
      OneKeyUpdate(sys.sends, e.i, next.sends[e.i], next.era, next.store.owner);
    }
  }

  /** Changing one send keeps the eras apart if it keeps its era, or joins the era the owner holds. */
  lemma OneKeyUpdate(sends: seq<Send>, i: nat, s: Send, era: nat, owner: Option<Key>)
    requires i < |sends| && OneKeyPerEra(sends) && s.key == sends[i].key
    requires Holding(s) ==>
      || (Holding(sends[i]) && sends[i].phase.era == s.phase.era)
      || (s.phase.era == era && owner == Some(s.key)
          && forall k :: 0 <= k < |sends| && k != i && Holding(sends[k]) && sends[k].phase.era == era ==>
             owner == Some(sends[k].key))
    ensures OneKeyPerEra(sends[i := s])
  {
    var next := sends[i := s];
    forall a, b | 0 <= a < |next| && 0 <= b < |next| && SameEra(next[a], next[b]) ensures next[a].key == next[b].key {
      if a != i && b != i {
        assert SameEra(sends[a], sends[b]);
      } else if a != b {
        var c := if a == i then b else a;
        if Holding(sends[i]) && sends[i].phase.era == s.phase.era {
          assert SameEra(sends[i], sends[c]);
        }
      }
    }
  }

  // ---- main results over whole runs -----------------------------------------------------------------

  lemma {:induction false} RunKeeps(sys: System, es: seq<Event>)
    requires Inv(sys) && Runs(sys, es) && DisciplinedRun(sys, es)
    ensures Inv(Run(sys, es))
    decreases |es|
  {
    if es != [] {
      StepKeeps(sys, es[0]);
      RunKeeps(Step(sys, es[0]), es[1..]);
    }
  }

  /** A key that takes the claim over its own unsettled sends makes the count wrong at once. */
  lemma IndisciplineBreaksCount(sys: System, e: Event)
    requires Inv(sys) && Enabled(sys, e) && !Disciplined(sys, e)
    ensures !InflightExact(Step(sys, e))
  {
    AdoptionKeeps(sys, e);
    var ready := Adopted(sys, e);
    ClaimShape(ready, e);
    var next := Step(ready, e);
    CountUpdate(ready.sends, e.i, next.sends[e.i], ready.sends[e.i].key);
  }

  /**
   The in-flight count is exact at every point of a run if and only if no key in the run ever
   takes the claim while it has unsettled sends of its own.
   */
  lemma {:induction false} ExactIffDisciplined(sys: System, es: seq<Event>)
    requires Inv(sys) && Runs(sys, es)
    ensures ExactRun(sys, es) <==> DisciplinedRun(sys, es)
    decreases |es|
  {
    if es != [] {
      var next := Step(sys, es[0]);
      if Disciplined(sys, es[0]) {
        StepKeeps(sys, es[0]);
        ExactIffDisciplined(next, es[1..]);
      } else {
        IndisciplineBreaksCount(sys, es[0]);
      }
    }
  }

  /** No key displaced by a takeover ever takes the claim again. */
  predicate DisplacedStayAway(sys: System, es: seq<Event>)
    requires Runs(sys, es)
    decreases |es|
  {
    es == [] || (&& (TakesClaim(sys, es[0]) ==> sys.sends[es[0].i].key !in sys.displaced)
                 && DisplacedStayAway(Step(sys, es[0]), es[1..]))
  }

  /** The condition a deployment can meet: a displaced key was revoked, so it sends no more. */
  lemma {:induction false} StayingAwayIsDisciplined(sys: System, es: seq<Event>)
    requires Inv(sys) && Runs(sys, es) && DisplacedStayAway(sys, es)
    ensures DisciplinedRun(sys, es)
    decreases |es|
  {
    if es != [] {
      var e := es[0];
      if TakesClaim(sys, e) {
        AdoptionKeeps(sys, e);
        ClaimShape(Adopted(sys, e), e);
        CountWitness(sys.sends, sys.sends[e.i].key);
      }
      StepKeeps(sys, e);
      StayingAwayIsDisciplined(Step(sys, e), es[1..]);
    }
  }

  /** A settle that frees the token: nothing claimed since the last takeover is in flight or arrived. */
  lemma ReleaseOnlyWhenNothingArrived(sys: System, i: nat)
    requires Inv(sys) && Enabled(sys, Settle(i))
    requires SettleTurn(sys.store, sys.sends[i].key, sys.sends[i].phase.delivered).1
    ensures forall k :: 0 <= k < |sys.sends| && k != i && Claimed(sys.sends[k]) && sys.sends[k].phase.era == sys.era ==>
              !Holding(sys.sends[k])
    ensures !sys.sends[i].phase.delivered
  {
    var key := sys.sends[i].key;
    var next := Step(sys, Settle(i));
    CountUpdate(sys.sends, i, next.sends[i], key);
    CountWitness(next.sends, key);
    assert forall k :: 0 <= k < |sys.sends| && k != i ==> next.sends[k] == sys.sends[k];
  }

  predicate Arrived(s: Send) {
    (s.phase.Sent? || s.phase.Settled?) && s.phase.delivered
  }

  /** Two sends claimed with no takeover between their claims, both delivered, come from one key. */
  lemma OneDelivererBetweenTakeovers(s: Storage, es: seq<Event>, i: nat, j: nat)
    requires InitialStore(s) && Runs(Initial(s), es) && DisciplinedRun(Initial(s), es)
    requires i < |Run(Initial(s), es).sends| && j < |Run(Initial(s), es).sends|
    requires var sends := Run(Initial(s), es).sends;
      Arrived(sends[i]) && Arrived(sends[j]) && sends[i].phase.era == sends[j].phase.era
    ensures var sends := Run(Initial(s), es).sends; sends[i].key == sends[j].key
  {
    InitialInv(s);
    RunKeeps(Initial(s), es);
    var sends := Run(Initial(s), es).sends;
    assert SameEra(sends[i], sends[j]);
  }

  predicate Quiescent(sys: System) {
    forall i :: 0 <= i < |sys.sends| ==> sys.sends[i].phase.Denied? || sys.sends[i].phase.Settled?
  }

  /**
   Once every send has finished, the token is owned exactly when something claimed since the last
   takeover was delivered, or the owner was adopted and never displaced; and the deliverer owns it.
   */
  lemma OwnedIffDelivered(s: Storage, es: seq<Event>)
    requires InitialStore(s) && Runs(Initial(s), es) && DisciplinedRun(Initial(s), es)
    requires Quiescent(Run(Initial(s), es))
    ensures var sys := Run(Initial(s), es);
      && (sys.store.owner.Some? <==>
            sys.inherited || exists i :: 0 <= i < |sys.sends| && DeliveredIn(sys.sends[i], sys.era))
      && (forall i :: 0 <= i < |sys.sends| && DeliveredIn(sys.sends[i], sys.era) ==>
            sys.store.owner == Some(sys.sends[i].key))
  {
    InitialInv(s);
    RunKeeps(Initial(s), es);
    var sys := Run(Initial(s), es);
    if sys.store.owner.Some? {
      CountWitness(sys.sends, sys.store.owner.value);
    }
  }

  /** Every send let through between the two states was made with `key`. */
  predicate OnlyAdmits(before: seq<Send>, after: seq<Send>, key: Key) {
    && |before| <= |after|
    && (forall i :: 0 <= i < |before| ==> after[i].key == before[i].key)
    && (forall i :: 0 <= i < |after| && Claimed(after[i]) ==>
       (i < |before| && Claimed(before[i])) || after[i].key == key)
  }

  lemma ClaimGuardsOwner(sys: System, e: Event, key: Key)
    requires Enabled(sys, e) && (e.Claim? || e.Swap?) && sys.store.seeded
    requires sys.store.owner == Some(key) && Confirmed(sys.store) && (e.Swap? ==> sys.sends[e.i].phase.from != key)
    ensures !TakesClaim(sys, e)
    ensures var next := Step(sys, e);
      next.store.owner == Some(key) && Confirmed(next.store) && next.era == sys.era
        && OnlyAdmits(sys.sends, next.sends, key)
  {
    ClaimShape(sys, e);
  }

  lemma OtherGuardsOwner(sys: System, e: Event, key: Key)
    requires Enabled(sys, e) && !e.Claim? && !e.Swap?
    requires sys.store.owner == Some(key) && Confirmed(sys.store)
    ensures var next := Step(sys, e);
      next.store.owner == Some(key) && Confirmed(next.store) && next.era == sys.era
        && OnlyAdmits(sys.sends, next.sends, key)
  {
    match e
    case Begin(_) =>
    case Revoke(_) =>
    case Judge(_, _) =>
    case Deliver(_, _) =>
    case Settle(_) =>
  }

  lemma StepGuardsOwner(sys: System, e: Event, key: Key)
    requires TakeoversChecked(sys) && sys.store.seeded && Enabled(sys, e)
    requires sys.store.owner == Some(key) && Confirmed(sys.store) && key !in sys.revoked
    ensures var next := Step(sys, e);
      && next.store.seeded && next.store.owner == Some(key) && Confirmed(next.store)
      && next.era == sys.era && OnlyAdmits(sys.sends, next.sends, key)
  {
    if e.Claim? || e.Swap? {
      ClaimGuardsOwner(sys, e, key);
    } else {
      OtherGuardsOwner(sys, e, key);
    }
  }

  /** Takeovers come only from keys that were inactive: on any run, disciplined or not. */
  lemma {:induction false} DisplacedWereRevoked(sys: System, es: seq<Event>)
    requires Runs(sys, es) && TakeoversChecked(sys)
    ensures TakeoversChecked(Run(sys, es))
    decreases |es|
  {
    if es != [] {
      DisplacedWereRevoked(Step(sys, es[0]), es[1..]);
    }
  }

  predicate TakeoversChecked(sys: System) {
    && sys.displaced <= sys.revoked
    && forall i :: 0 <= i < |sys.sends| && sys.sends[i].phase.Swapping? ==> sys.sends[i].phase.from in sys.revoked
  }

  /** The key holds the token by a delivery or an adoption. */
  predicate Pinned(sys: System, key: Key) {
    sys.store.seeded && sys.store.owner == Some(key) && Confirmed(sys.store)
  }

  lemma {:induction false} PinnedStays(sys: System, es: seq<Event>, key: Key)
    requires TakeoversChecked(sys) && Pinned(sys, key) && Runs(sys, es) && key !in Run(sys, es).revoked
    ensures var end := Run(sys, es);
      Pinned(end, key) && end.era == sys.era && OnlyAdmits(sys.sends, end.sends, key)
    decreases |es|
  {
    RevokedGrows(sys, es);
    if es != [] {
      StepGuardsOwner(sys, es[0], key);
      DisplacedWereRevoked(sys, [es[0]]);
      assert Run(sys, [es[0]]) == Step(sys, es[0]);
      PinnedStays(Step(sys, es[0]), es[1..], key);
    }
  }

  /**
   The pinning guarantee, from any point of any run on: a key that owns a token with a confirmed
   delivery keeps it for as long as the key is active, whatever every other sender does and whether or
   not the count is still exact; no other key's send is let through.
   */
  lemma ActiveOwnerKeepsToken(s: Storage, before: seq<Event>, after: seq<Event>, key: Key)
    requires InitialStore(s) && Runs(Initial(s), before) && Runs(Run(Initial(s), before), after)
    requires Pinned(Run(Initial(s), before), key) && key !in Run(Run(Initial(s), before), after).revoked
    ensures var sys := Run(Initial(s), before);
      var end := Run(sys, after);
      Pinned(end, key) && end.era == sys.era && OnlyAdmits(sys.sends, end.sends, key)
  {
    DisplacedWereRevoked(Initial(s), before);
    PinnedStays(Run(Initial(s), before), after, key);
  }

  lemma {:induction false} RevokedGrows(sys: System, es: seq<Event>)
    requires Runs(sys, es)
    ensures sys.revoked <= Run(sys, es).revoked
    decreases |es|
  {
    if es != [] {
      RevokedGrows(Step(sys, es[0]), es[1..]);
    }
  }

  /** Once the instance has been touched, the legacy owner handed over by callers changes nothing. */
  function Relabel(es: seq<Event>, legacy: Option<Key>): seq<Event> {
    seq(|es|, i requires 0 <= i < |es| => if es[i].Claim? then es[i].(legacy := legacy) else es[i])
  }

  lemma {:induction false} LegacyIgnoredAfterFirstTouch(sys: System, es: seq<Event>, legacy: Option<Key>)
    requires sys.store.seeded && Runs(sys, es)
    ensures Runs(sys, Relabel(es, legacy)) && Run(sys, Relabel(es, legacy)) == Run(sys, es)
    decreases |es|
  {
    if es != [] {
      var other := Relabel(es, legacy);
      assert Step(sys, other[0]) == Step(sys, es[0]) && Step(sys, es[0]).store.seeded;
      assert other[1..] == Relabel(es[1..], legacy);
      LegacyIgnoredAfterFirstTouch(Step(sys, es[0]), es[1..], legacy);
    }
  }

  // ---- why the discipline is needed -----------------------------------------------------------------

  lemma Prepend(sys: System, e: Event, es: seq<Event>)
    requires Enabled(sys, e) && Runs(Step(sys, e), es)
    ensures Runs(sys, [e] + es) && Run(sys, [e] + es) == Run(Step(sys, e), es)
    ensures DisciplinedRun(sys, [e] + es) <==> Disciplined(sys, e) && DisciplinedRun(Step(sys, e), es)
  {
    assert ([e] + es)[1..] == es;
  }

  /**
   A revoked key with an unsettled send is displaced; the new owner's send fails and frees the
   token; a request the revoked key had already authenticated then takes the claim again. Its
   old failed send settles against the new claim, and the token is free while a send is still
   using it, so another key can claim it.
   */
  lemma ReclaimReleasesUnderASend() returns (es: seq<Event>)
    ensures Runs(Initial(FRESH), es) && !DisciplinedRun(Initial(FRESH), es)
    ensures var end := Run(Initial(FRESH), es);
      end.store.owner.None? && |end.sends| == 3 && end.sends[1].phase.Sending?
  {
    var k, n := "displaced", "successor";
    var s5 := FirstClaim(k, n);
    es := ReclaimTail(AfterRelease(k, n), k);
    var s6 := Step(s5, Claim(2, None, 70_000));
    var s7 := Step(s6, Judge(2, 70_000));
    var s8 := Step(s7, Swap(2, 70_000));
    var s9 := Step(s8, Deliver(2, false));
    var s10 := Step(s9, Settle(2));
    assert s7.sends == [Send(k, Sending(0)), Send(k, Calling), Send(n, Swapping(k))];
    assert s8.sends == [Send(k, Sending(0)), Send(k, Calling), Send(n, Sending(1))];
    assert s10 == AfterRelease(k, n);
    Prepend(s9, Settle(2), es);                 es := [Settle(2)] + es;
    Prepend(s8, Deliver(2, false), es);         es := [Deliver(2, false)] + es;
    Prepend(s7, Swap(2, 70_000), es);           es := [Swap(2, 70_000)] + es;
    Prepend(s6, Judge(2, 70_000), es);          es := [Judge(2, 70_000)] + es;
    Prepend(s5, Claim(2, None, 70_000), es);    es := [Claim(2, None, 70_000)] + es;
    es := FirstClaimRuns(k, n, es);
  }

  /** A send of `k` holds the claim, another request of `k` is authenticated, `k` is revoked. */
  function FirstClaim(k: Key, n: Key): System {
    System(Storage(true, Some(k), Some(false), Some(1), Some(0), None, None),
           [Send(k, Sending(0)), Send(k, Calling), Send(n, Calling)], {k}, 0, {}, false)
  }

  function AfterRelease(k: Key, n: Key): System {
    System(Storage(true, None, None, None, None, None, None),
           [Send(k, Sending(0)), Send(k, Calling), Send(n, Settled(1, false))], {k}, 1, {k}, false)
  }

  lemma FirstClaimRuns(k: Key, n: Key, rest: seq<Event>) returns (es: seq<Event>)
    requires k != n && Runs(FirstClaim(k, n), rest)
    ensures Runs(Initial(FRESH), es) && Run(Initial(FRESH), es) == Run(FirstClaim(k, n), rest)
    ensures DisciplinedRun(Initial(FRESH), es) ==> DisciplinedRun(FirstClaim(k, n), rest)
    ensures |es| == 5 + |rest| && es[5..] == rest
  {
    var s0 := Initial(FRESH);
    var s1 := Step(s0, Begin(k));
    var s2 := Step(s1, Claim(0, None, 0));
    var s3 := Step(s2, Begin(k));
    var s4 := Step(s3, Revoke(k));
    assert Step(s4, Begin(n)) == FirstClaim(k, n);
    es := rest;
    Prepend(s4, Begin(n), es);           es := [Begin(n)] + es;
    Prepend(s3, Revoke(k), es);          es := [Revoke(k)] + es;
    Prepend(s2, Begin(k), es);           es := [Begin(k)] + es;
    Prepend(s1, Claim(0, None, 0), es);  es := [Claim(0, None, 0)] + es;
    Prepend(s0, Begin(k), es);           es := [Begin(k)] + es;
  }

  lemma ReclaimTail(s: System, k: Key) returns (es: seq<Event>)
    requires s.store == Storage(true, None, None, None, None, None, None)
    requires |s.sends| == 3 && s.sends[0] == Send(k, Sending(0)) && s.sends[1] == Send(k, Calling)
    ensures Runs(s, es) && !DisciplinedRun(s, es)
    ensures var end := Run(s, es); end.store.owner.None? && |end.sends| == 3 && end.sends[1].phase.Sending?
  {
    var s1 := Step(s, Claim(1, None, 80_000));
    var s2 := Step(s1, Deliver(0, false));
    CountWitness(s.sends, k);
    es := [];
    Prepend(s2, Settle(0), es);              es := [Settle(0)] + es;
    Prepend(s1, Deliver(0, false), es);      es := [Deliver(0, false)] + es;
    Prepend(s, Claim(1, None, 80_000), es);  es := [Claim(1, None, 80_000)] + es;
  }
}
