/**
 The relay's Durable Object. One instance serves one device token, one registering address
 or the shared daily budget, and handles one call at a time, so each method below is one
 atomic turn over the instance's storage.

 The functions are the turns on values; the class performs them on mutable storage.
 */
module Coordinator {
  import opened Optional

  type Key = string

  /** Persistent storage. An absent entry is `None`: earlier versions of the class wrote fewer. */
  datatype Storage = Storage(
    seeded: bool,
    owner: Option<Key>,
    confirmed: Option<bool>,
    inflight: Option<nat>,
    claimedAt: Option<int>,
    budgetDay: Option<int>,
    budgetUsed: Option<nat>)

  const FRESH := Storage(false, None, None, None, None, None, None)
  const DAY_MS := 86_400_000

  datatype ClaimResult = ClaimResult(owner: Key, claimedAt: int)
  datatype BudgetResult = BudgetResult(allowed: bool, used: nat, day: int)

  /** Reads the owner, adopting the legacy owner once if the instance was never touched. */
  function Seed(s: Storage, legacy: Option<Key>, now: int): (Storage, Option<Key>) {
    if s.seeded then (s, s.owner)
    else if legacy.None? then (s.(seeded := true), None)
    else (s.(seeded := true, owner := legacy, confirmed := Some(true), claimedAt := Some(now)), legacy)
  }

  /** Stamps a claim of unknown age as taken now. */
  function Stamp(s: Storage, now: int): Storage {
    if s.claimedAt.Some? then s else s.(claimedAt := Some(now))
  }

  function TakeClaim(s: Storage, key: Key, now: int): Storage {
    s.(owner := Some(key), claimedAt := Some(now), confirmed := Some(false), inflight := Some(1))
  }

  function InflightOf(s: Storage): nat {
    if s.inflight.None? then 0 else s.inflight.value
  }

  /** An absent flag predates the flag, and then the owner got there by delivering. */
  predicate Confirmed(s: Storage) {
    s.confirmed.None? || s.confirmed.value
  }

  function ClaimTurn(s: Storage, key: Key, legacy: Option<Key>, takeoverFrom: Option<Key>, now: int)
    : (Storage, ClaimResult)
  {
    var (s1, owner) := Seed(s, legacy, now);
    if owner.None? || (owner.value != key && takeoverFrom == owner) then
      (TakeClaim(s1, key, now), ClaimResult(key, now))
    else
      var s2 := Stamp(if owner.value == key then s1.(inflight := Some(InflightOf(s1) + 1)) else s1, now);
      (s2, ClaimResult(owner.value, s2.claimedAt.value))
  }

  function SettleTurn(s: Storage, key: Key, delivered: bool): (Storage, bool) {
    if s.owner != Some(key) then (s, false)
    else
      var left: nat := if s.inflight.None? || s.inflight.value == 0 then 0 else s.inflight.value - 1;
      if delivered then (s.(confirmed := Some(true), inflight := Some(left)), false)
      else if Confirmed(s) || left > 0 then (s.(inflight := Some(left)), false)
      else (s.(owner := None, confirmed := None, inflight := None, claimedAt := None), true)
  }

  function RegisterTurn(s: Storage, key: Key, legacy: Option<Key>, now: int): (Storage, Option<Key>) {
    var (s1, prior) := Seed(s, legacy, now);
    (s1.(owner := Some(key)), if prior == Some(key) then None else prior)
  }

  function BudgetTurn(s: Storage, limit: nat, now: int): (Storage, BudgetResult) {
    var day := now / DAY_MS;
    var used: nat := if s.budgetDay == Some(day) && s.budgetUsed.Some? then s.budgetUsed.value else 0;
    if used >= limit then
      (if s.budgetDay != Some(day) then s.(budgetDay := Some(day), budgetUsed := Some(0)) else s,
       BudgetResult(false, used, day))
    else
      (s.(budgetDay := Some(day), budgetUsed := Some(used + 1)), BudgetResult(true, used + 1, day))
  }

  class RelayCoordinator {
    var seeded: bool
    var owner: Option<Key>
    var confirmed: Option<bool>
    var inflight: Option<nat>
    var claimedAt: Option<int>
    var budgetDay: Option<int>
    var budgetUsed: Option<nat>

    ghost function State(): Storage
      reads this
    {
      Storage(seeded, owner, confirmed, inflight, claimedAt, budgetDay, budgetUsed)
    }

    constructor ()
      ensures State() == FRESH
    {
      seeded, owner, confirmed, inflight, claimedAt := false, None, None, None, None;
      budgetDay, budgetUsed := None, None;
    }

    method CurrentOwner(legacy: Option<Key>, now: int) returns (current: Option<Key>)
      modifies this
      ensures (State(), current) == Seed(old(State()), legacy, now)
    {
      if seeded {
        return owner;
      }
      seeded := true;
      if legacy.Some? {
        owner, confirmed, claimedAt := legacy, Some(true), Some(now);
      }
      current := legacy;
    }

    method ClaimedAt(now: int) returns (at: int)
      modifies this
      ensures State() == Stamp(old(State()), now)
      ensures claimedAt == Some(at)
    {
      if claimedAt.None? {
        claimedAt := Some(now);
      }
      at := claimedAt.value;
    }

    method ClaimToken(key: Key, legacy: Option<Key>, takeoverFrom: Option<Key>, now: int) returns (r: ClaimResult)
      modifies this
      ensures (State(), r) == ClaimTurn(old(State()), key, legacy, takeoverFrom, now)
    {
      var current := CurrentOwner(legacy, now);
      if current.None? || (current.value != key && takeoverFrom == current) {
        owner, claimedAt, confirmed, inflight := Some(key), Some(now), Some(false), Some(1);
        return ClaimResult(key, now);
      }
      if current.value == key {
        var sends := if inflight.Some? then inflight.value else 0;
        inflight := Some(sends + 1);
      }
      var at := ClaimedAt(now);
      r := ClaimResult(current.value, at);
    }

    method SettleToken(key: Key, delivered: bool) returns (released: bool)
      modifies this
      ensures (State(), released) == SettleTurn(old(State()), key, delivered)
    {
      if owner != Some(key) {
        return false;
      }
      var held := if inflight.Some? then inflight.value else 1;
      var left := if held == 0 then 0 else held - 1;
      if delivered {
        confirmed, inflight := Some(true), Some(left);
        return false;
      }
      var everDelivered := confirmed.None? || confirmed.value;
      if everDelivered || left > 0 {
        inflight := Some(left);
        return false;
      }
      owner, confirmed, inflight, claimedAt := None, None, None, None;
      released := true;
    }

    method ClaimRegistrationIp(key: Key, legacy: Option<Key>, now: int) returns (prior: Option<Key>)
      modifies this
      ensures (State(), prior) == RegisterTurn(old(State()), key, legacy, now)
    {
      prior := CurrentOwner(legacy, now);
      owner := Some(key);
      if prior == Some(key) {
        prior := None;
      }
    }

    method ConfirmRegistrationIp(key: Key) returns (current: bool)
      ensures current <==> State().owner == Some(key)
    {
      current := owner == Some(key);
    }

    method SpendDailyBudget(limit: nat, now: int) returns (r: BudgetResult)
      modifies this
      ensures (State(), r) == BudgetTurn(old(State()), limit, now)
    {
      var day := now / DAY_MS;
      var used := 0;
      if budgetDay == Some(day) && budgetUsed.Some? {
        used := budgetUsed.value;
      }
      if used >= limit {
        if budgetDay != Some(day) {
          budgetDay, budgetUsed := Some(day), Some(0);
        }
        return BudgetResult(false, used, day);
      }
      budgetDay, budgetUsed := Some(day), Some(used + 1);
      r := BudgetResult(true, used + 1, day);
    }
  }
}
