/**
 The API's token buckets. Buckets nobody needs are swept, so the map stays bounded; the question is
 when sweeping can be told apart from never forgetting. Instants are whole nanoseconds, tokens are
 reals: rounding of the tokens is not modelled.
 */
module Limiter {
  import opened Ranking

  type Key = string

  const MINUTE := 60_000_000_000
  const IDLE_TTL := 600_000_000_000

  datatype Bucket = Bucket(tokens: real, max: real, rate: real, last: int)
  datatype State = State(buckets: map<Key, Bucket>, lastSweep: int, cap: nat)

  /** What a caller passes for its key; the bucket keeps what the first call passed. */
  datatype Limit = Limit(max: real, rate: real)

  datatype Call = Call(key: Key, limit: Limit, now: int)
  datatype Entry = Entry(call: Call, ok: bool)

  // ---- the limiter ----------------------------------------------------------------------------------

  /** Tokens gained in a span of nanoseconds at a rate per second, added up one nanosecond at a time. */
  function Gain(rate: real, span: int): real
    decreases if span < 0 then -span else span
  {
    if span == 0 then 0.0
    else if span > 0 then Gain(rate, span - 1) + rate / 1_000_000_000.0
    else Gain(rate, span + 1) - rate / 1_000_000_000.0
  }

  /** It is the product the code computes. */
  lemma {:induction false} GainIsProduct(rate: real, span: int)
    ensures Gain(rate, span) == span as real / 1_000_000_000.0 * rate
    decreases if span < 0 then -span else span
  {
    if span > 0 {
      GainIsProduct(rate, span - 1);
    } else if span < 0 {
      GainIsProduct(rate, span + 1);
    }
  }

  lemma {:induction false} GainsAdd(rate: real, a: nat, b: nat)
    ensures Gain(rate, a + b) == Gain(rate, a) + Gain(rate, b)
  {
    if b > 0 {
      GainsAdd(rate, a, b - 1);
    }
  }

  lemma {:induction false} GainNonNegative(rate: real, span: nat)
    requires rate >= 0.0
    ensures Gain(rate, span) >= 0.0
  {
    if span > 0 {
      GainNonNegative(rate, span - 1);
    }
  }

  /** Idling past the limit gains at least what the shortest such idle time gains. */
  lemma LongIdleGain(rate: real, span: int)
    requires rate >= 0.0 && span > IDLE_TTL
    ensures Gain(rate, span) >= 600.000000001 * rate
  {
    GainIsProduct(rate, span);
    assert span as real / 1_000_000_000.0 >= 600.000000001;
  }

  function Refill(b: Bucket, now: int): real {
    var level := b.tokens + Gain(b.rate, now - b.last);
    if level > b.max then b.max else level
  }

  function Take(b: Bucket, now: int): (Bucket, bool) {
    var level := Refill(b, now);
    if level < 1.0 then (b.(tokens := level, last := now), false)
    else (b.(tokens := level - 1.0, last := now), true)
  }

  predicate Full(b: Bucket, now: int) {
    b.tokens + Gain(b.rate, now - b.last) >= b.max
  }

  predicate Evictable(b: Bucket, now: int) {
    now - b.last > IDLE_TTL || (Full(b, now) && now - b.last > MINUTE)
  }

  function Keep(buckets: map<Key, Bucket>, now: int): map<Key, Bucket> {
    map k | k in buckets && !Evictable(buckets[k], now) :: buckets[k]
  }

  function Sweep(st: State, now: int): State {
    if now - st.lastSweep < MINUTE && |st.buckets| < st.cap then st
    else State(Keep(st.buckets, now), now, st.cap)
  }

  predicate Room(st: State, key: Key) {
    key in st.buckets || |st.buckets| < st.cap
  }

  function BucketFor(buckets: map<Key, Bucket>, key: Key, limit: Limit, now: int): Bucket {
    if key in buckets then buckets[key] else Bucket(limit.max, limit.max, limit.rate, now)
  }

  function Allow(st: State, key: Key, limit: Limit, now: int): (State, bool) {
    var swept := Sweep(st, now);
    if !Room(swept, key) then (swept, false)
    else
      var (b, ok) := Take(BucketFor(swept.buckets, key, limit, now), now);
      (swept.(buckets := swept.buckets[key := b]), ok)
  }

  /** The limiter the comments describe: every bucket is kept for ever. */
  function AllowForever(buckets: map<Key, Bucket>, key: Key, limit: Limit, now: int): (map<Key, Bucket>, bool) {
    var (b, ok) := Take(BucketFor(buckets, key, limit, now), now);
    (buckets[key := b], ok)
  }

  class RateLimiters {
    var buckets: map<Key, Bucket>
    var lastSweep: int
    const maxLimiters: nat

    constructor (maxLimiters: nat, now: int)
      ensures View() == State(map[], now, maxLimiters)
    {
      buckets, lastSweep, this.maxLimiters := map[], now, maxLimiters;
    }

    function View(): State
      reads this
    {
      State(buckets, lastSweep, maxLimiters)
    }

    method SweepLimiters(now: int)
      modifies this
      ensures View() == Sweep(old(View()), now)
    {
      var atCapacity := |buckets| >= maxLimiters;
      if now - lastSweep < MINUTE && !atCapacity {
        return;
      }
      lastSweep := now;
      ghost var all := buckets;
      var todo := buckets.Keys;
      while todo != {}
        invariant todo <= all.Keys && buckets.Keys <= all.Keys
        invariant forall k :: k in all ==> (k in buckets <==> k in todo || !Evictable(all[k], now))
        invariant forall k :: k in buckets ==> buckets[k] == all[k]
        invariant lastSweep == now
      {
        var k :| k in todo;
        if Evictable(buckets[k], now) {
          buckets := buckets - {k};
        }
        todo := todo - {k};
      }
      assert buckets == Keep(all, now);
    }

    method AllowRateLimit(key: Key, limit: Limit, now: int) returns (ok: bool)
      modifies this
      ensures (View(), ok) == Allow(old(View()), key, limit, now)
    {
      SweepLimiters(now);
      if key !in buckets {
        if |buckets| >= maxLimiters {
          return false;
        }
        buckets := buckets[key := Bucket(limit.max, limit.max, limit.rate, now)];
      }
      ghost var swept := Sweep(old(View()), now);
      ghost var found := buckets[key];
      var level := buckets[key].tokens + Gain(buckets[key].rate, now - buckets[key].last);
      if level > buckets[key].max {
        level := buckets[key].max;
      }
      buckets := buckets[key := buckets[key].(tokens := level, last := now)];
      if level < 1.0 {
        assert buckets == swept.buckets[key := Take(found, now).0];
        return false;
      }
      buckets := buckets[key := buckets[key].(tokens := level - 1.0)];
      assert buckets == swept.buckets[key := Take(found, now).0];
      return true;
    }
  }

  /**
   Which buckets a call sweeps, in nanoseconds and tokens: none within a minute of the last sweep unless
   the map is full; then those idle for over ten minutes, or for over one and refilled by now.
   */
  lemma WhatIsSwept(st: State, now: int, key: Key)
    requires key in st.buckets
    ensures var b := st.buckets[key];
      var level := b.tokens + (now - b.last) as real / 1_000_000_000.0 * b.rate;
      key !in Sweep(st, now).buckets <==>
        && (now - st.lastSweep >= 60_000_000_000 || |st.buckets| >= st.cap)
        && (now - b.last > 600_000_000_000 || (now - b.last > 60_000_000_000 && level >= b.max))
    ensures key in Sweep(st, now).buckets ==> Sweep(st, now).buckets[key] == st.buckets[key]
  {
    GainIsProduct(st.buckets[key].rate, now - st.buckets[key].last);
  }

  // ---- runs -----------------------------------------------------------------------------------------

  function Serve(st: State, c: Call): (State, bool) {
    Allow(st, c.key, c.limit, c.now)
  }

  function ServeForever(buckets: map<Key, Bucket>, c: Call): (map<Key, Bucket>, bool) {
    AllowForever(buckets, c.key, c.limit, c.now)
  }

  predicate Sane(l: Limit) { l.max >= 0.0 && l.rate >= 0.0 }

  /** An empty bucket refills within the shortest idle time after which it is dropped. */
  predicate RefillsInTime(l: Limit) { 600.000000001 * l.rate >= l.max }

  /** The clock never runs back. */
  predicate Monotone(calls: seq<Call>, from: int, to: int)
    decreases |calls|
  {
    if calls == [] then from <= to else from <= calls[0].now && Monotone(calls[1..], calls[0].now, to)
  }

  function Run(st: State, calls: seq<Call>): State
    decreases |calls|
  {
    if calls == [] then st else Run(Serve(st, calls[0]).0, calls[1..])
  }

  function Decisions(st: State, calls: seq<Call>): (ds: seq<bool>)
    ensures |ds| == |calls|
    decreases |calls|
  {
    if calls == [] then []
    else
      var (st', ok) := Serve(st, calls[0]);
      [ok] + Decisions(st', calls[1..])
  }

  function DecisionsForever(buckets: map<Key, Bucket>, calls: seq<Call>): (ds: seq<bool>)
    ensures |ds| == |calls|
    decreases |calls|
  {
    if calls == [] then []
    else
      var (b', ok) := ServeForever(buckets, calls[0]);
      [ok] + DecisionsForever(b', calls[1..])
  }

  /** No call of the key is turned away for lack of room. */
  predicate HasRoom(st: State, calls: seq<Call>, key: Key)
    decreases |calls|
  {
    calls == [] ||
    ((calls[0].key == key ==> Room(Sweep(st, calls[0].now), key)) && HasRoom(Serve(st, calls[0]).0, calls[1..], key))
  }

  /** Every call of the key passes this limit; the other keys pass what they like. */
  predicate Passes(calls: seq<Call>, key: Key, l: Limit) {
    forall i :: 0 <= i < |calls| && calls[i].key == key ==> calls[i].limit == l
  }

  /** The key's calls are answered alike. */
  predicate SameAnswers(calls: seq<Call>, key: Key, ds: seq<bool>, es: seq<bool>)
    requires |ds| == |calls| == |es|
  {
    forall i :: 0 <= i < |calls| && calls[i].key == key ==> ds[i] == es[i]
  }

  // ---- the bound on memory --------------------------------------------------------------------------

  lemma KeepShrinks(buckets: map<Key, Bucket>, now: int)
    ensures |Keep(buckets, now)| <= |buckets|
  {
    SubsetSize(Keep(buckets, now).Keys, buckets.Keys);
  }

  lemma ServeStaysBounded(st: State, c: Call)
    requires |st.buckets| <= st.cap
    ensures var st' := Serve(st, c).0; |st'.buckets| <= st'.cap == st.cap
  {
    KeepShrinks(st.buckets, c.now);
  }

  /** However the calls come, and whatever they pass, the map never exceeds its capacity. */
  lemma {:induction false} NeverOverCapacity(st: State, calls: seq<Call>)
    requires |st.buckets| <= st.cap
    ensures |Run(st, calls).buckets| <= st.cap
    decreases |calls|
  {
    if calls != [] {
      ServeStaysBounded(st, calls[0]);
      NeverOverCapacity(Serve(st, calls[0]).0, calls[1..]);
    }
  }

  // ---- sweeping loses nothing -----------------------------------------------------------------------

  predicate BucketOk(b: Bucket, l: Limit, clock: int) {
    Sane(l) && b.max == l.max && b.rate == l.rate && 0.0 <= b.tokens <= b.max && b.last <= clock
  }

  lemma RefillBounds(b: Bucket, l: Limit, now: int)
    requires BucketOk(b, l, now)
    ensures b.tokens <= Refill(b, now) <= b.max
  {
    GainNonNegative(b.rate, now - b.last);
  }

  lemma StaysFull(b: Bucket, l: Limit, now: int, later: int)
    requires BucketOk(b, l, now) && Full(b, now) && now <= later
    ensures Full(b, later) && Refill(b, later) == b.max
  {
    GainsAdd(b.rate, now - b.last, later - now);
    GainNonNegative(b.rate, later - now);
  }

  /** Whatever the sweep drops had refilled. */
  lemma EvictedIsFull(b: Bucket, l: Limit, now: int)
    requires BucketOk(b, l, now) && RefillsInTime(l) && Evictable(b, now)
    ensures Full(b, now)
  {
    if now - b.last > IDLE_TTL {
      LongIdleGain(b.rate, now - b.last);
    }
  }

  lemma TakeKeepsOk(b: Bucket, l: Limit, now: int)
    requires BucketOk(b, l, now)
    ensures BucketOk(Take(b, now).0, l, now)
  {
    RefillBounds(b, l, now);
  }

  /** What the limiter that forgets nothing holds for the key is held here too, or is full there. */
  predicate Simulates(st: State, all: map<Key, Bucket>, key: Key, l: Limit, clock: int) {
    && (key in st.buckets ==> key in all && st.buckets[key] == all[key])
    && (key in all ==> BucketOk(all[key], l, clock))
    && (key in all && key !in st.buckets ==> Full(all[key], clock))
  }

  lemma SweepSimulates(st: State, all: map<Key, Bucket>, key: Key, l: Limit, clock: int, now: int)
    requires Simulates(st, all, key, l, clock) && RefillsInTime(l) && clock <= now
    ensures Simulates(Sweep(st, now), all, key, l, now)
  {
    if key in all && key !in Sweep(st, now).buckets {
      if key in st.buckets {
        EvictedIsFull(all[key], l, now);
      } else {
        StaysFull(all[key], l, clock, now);
      }
    }
  }

  /** A forgotten bucket and a full one behave alike. */
  lemma SameTake(kept: map<Key, Bucket>, all: map<Key, Bucket>, key: Key, l: Limit, now: int)
    requires Sane(l)
    requires key in all ==> BucketOk(all[key], l, now)
    requires key in kept ==> key in all && kept[key] == all[key]
    requires key in all && key !in kept ==> Full(all[key], now)
    ensures Take(BucketFor(kept, key, l, now), now) == Take(BucketFor(all, key, l, now), now)
    ensures BucketOk(Take(BucketFor(all, key, l, now), now).0, l, now)
  {
    if key in all && key !in kept {
      StaysFull(all[key], l, now, now);
    }
    TakeKeepsOk(BucketFor(all, key, l, now), l, now);
  }

  lemma CallSimulates(st: State, all: map<Key, Bucket>, key: Key, l: Limit, clock: int, c: Call)
    requires Simulates(st, all, key, l, clock) && Sane(l) && RefillsInTime(l) && clock <= c.now
    requires c.key == key ==> c.limit == l && Room(Sweep(st, c.now), key)
    ensures Simulates(Serve(st, c).0, ServeForever(all, c).0, key, l, c.now)
    ensures c.key == key ==> Serve(st, c).1 == ServeForever(all, c).1
  {
    SweepSimulates(st, all, key, l, clock, c.now);
    if c.key == key {
      SameTake(Sweep(st, c.now).buckets, all, key, l, c.now);
    }
  }

  lemma {:induction false} RunSimulates(st: State, all: map<Key, Bucket>, calls: seq<Call>, key: Key, l: Limit,
      from: int, to: int)
    requires Simulates(st, all, key, l, from) && Sane(l) && RefillsInTime(l)
    requires Passes(calls, key, l) && Monotone(calls, from, to) && HasRoom(st, calls, key)
    ensures SameAnswers(calls, key, Decisions(st, calls), DecisionsForever(all, calls))
    decreases |calls|
  {
    if calls != [] {
      var c := calls[0];
      CallSimulates(st, all, key, l, from, c);
      RunSimulates(Serve(st, c).0, ServeForever(all, c).0, calls[1..], key, l, c.now, to);
      OneMoreAnswer(calls, key, Serve(st, c).1, ServeForever(all, c).1,
                    Decisions(Serve(st, c).0, calls[1..]), DecisionsForever(ServeForever(all, c).0, calls[1..]));
    }
  }

  lemma OneMoreAnswer(calls: seq<Call>, key: Key, d: bool, e: bool, ds: seq<bool>, es: seq<bool>)
    requires calls != [] && |ds| == |calls| - 1 == |es|
    requires (calls[0].key == key ==> d == e) && SameAnswers(calls[1..], key, ds, es)
    ensures SameAnswers(calls, key, [d] + ds, [e] + es)
  {
    forall i | 0 < i < |calls| && calls[i].key == key ensures ds[i - 1] == es[i - 1] {
      assert calls[1..][i - 1].key == key;
    }
  }

  /**
   The promise of the sweep, key by key: a key whose own limit refills in time is decided on every run
   as if no bucket were ever dropped, whatever limits the other keys have, as long as it finds room.
   */
  lemma SweepingIsInvisible(cap: nat, start: int, calls: seq<Call>, to: int, key: Key, l: Limit)
    requires Sane(l) && RefillsInTime(l) && Passes(calls, key, l)
    requires Monotone(calls, start, to) && HasRoom(State(map[], start, cap), calls, key)
    ensures SameAnswers(calls, key, Decisions(State(map[], start, cap), calls), DecisionsForever(map[], calls))
  {
    RunSimulates(State(map[], start, cap), map[], calls, key, l, start, to);
  }

  /** At most as many distinct keys as buckets: then every key finds room. */
  lemma {:induction false} FewKeysHaveRoom(st: State, calls: seq<Call>, keys: set<Key>, key: Key)
    requires st.buckets.Keys <= keys && |keys| <= st.cap
    requires forall i :: 0 <= i < |calls| ==> calls[i].key in keys
    ensures HasRoom(st, calls, key)
    decreases |calls|
  {
    if calls != [] {
      var c := calls[0];
      var swept := Sweep(st, c.now);
      if c.key !in swept.buckets {
        SubsetSize(swept.buckets.Keys, keys - {c.key});
      }
      FewKeysHaveRoom(Serve(st, c).0, calls[1..], keys, key);
    }
  }

  // ---- the bound on admissions ----------------------------------------------------------------------

  /** A limit that asks for no more than the bound. */
  predicate Within(l: Limit, bound: Limit) {
    Sane(l) && l.max <= bound.max && l.rate <= bound.rate
  }

  /** And one that refills in time. */
  predicate FitsIn(l: Limit, bound: Limit) {
    Within(l, bound) && RefillsInTime(l)
  }

  function LimitOf(b: Bucket): Limit { Limit(b.max, b.rate) }

  /** The key's bucket, if it has one, came from a limit within the bound. */
  predicate Kept(st: State, key: Key, bound: Limit, clock: int) {
    key in st.buckets ==>
      Within(LimitOf(st.buckets[key]), bound) && BucketOk(st.buckets[key], LimitOf(st.buckets[key]), clock)
  }

  predicate Ours(st: State, key: Key, bound: Limit, clock: int) {
    Kept(st, key, bound, clock) && (key in st.buckets ==> RefillsInTime(LimitOf(st.buckets[key])))
  }

  /** What a bucket with the largest allowance would still hold, had it been spent from alike. */
  function Level(st: State, key: Key, bound: Limit, now: int): real {
    if key in st.buckets then Refill(st.buckets[key], now) + (bound.max - st.buckets[key].max) else bound.max
  }

  /** The token an admitted call of the key takes. */
  function Spent(mine: bool): real { if mine then 1.0 else 0.0 }

  lemma {:induction false} FasterGainsMore(rate: real, bound: real, span: nat)
    requires rate <= bound
    ensures Gain(rate, span) <= Gain(bound, span)
  {
    if span > 0 {
      FasterGainsMore(rate, bound, span - 1);
    }
  }

  /** Time refills at the largest rate and no faster. */
  lemma LevelGrowsAtRate(st: State, key: Key, bound: Limit, now: int, later: int)
    requires Kept(st, key, bound, now) && Sane(bound) && now <= later
    ensures Level(st, key, bound, later) <= Level(st, key, bound, now) + Gain(bound.rate, later - now)
  {
    GainNonNegative(bound.rate, later - now);
    if key in st.buckets {
      var b := st.buckets[key];
      GainsAdd(b.rate, now - b.last, later - now);
      FasterGainsMore(b.rate, bound.rate, later - now);
    }
  }

  lemma SweepKeepsLevel(st: State, key: Key, bound: Limit, now: int)
    requires Ours(st, key, bound, now)
    ensures Ours(Sweep(st, now), key, bound, now)
    ensures Level(Sweep(st, now), key, bound, now) == Level(st, key, bound, now)
  {
    if key in st.buckets && key !in Sweep(st, now).buckets {
      var b := st.buckets[key];
      EvictedIsFull(b, LimitOf(b), now);
      StaysFull(b, LimitOf(b), now, now);
    }
  }

  /** A call spends one token of its own key exactly when it is admitted, and none of any other. */
  lemma CallSpends(st: State, c: Call, key: Key, bound: Limit)
    requires Ours(st, key, bound, c.now) && (c.key == key ==> FitsIn(c.limit, bound))
    ensures var (st', ok) := Serve(st, c);
      && Ours(st', key, bound, c.now)
      && Level(st', key, bound, c.now) == Level(st, key, bound, c.now) - Spent(ok && c.key == key)
  {
    SweepKeepsLevel(st, key, bound, c.now);
    var swept := Sweep(st, c.now);
    if c.key == key && Room(swept, key) {
      var b := BucketFor(swept.buckets, key, c.limit, c.now);
      TakeKeepsOk(b, LimitOf(b), c.now);
      RefillBounds(b, LimitOf(b), c.now);
    }
  }

  lemma LevelInRange(st: State, key: Key, bound: Limit, now: int)
    requires Kept(st, key, bound, now) && Sane(bound)
    ensures 0.0 <= Level(st, key, bound, now) <= bound.max
  {
    if key in st.buckets {
      RefillBounds(st.buckets[key], LimitOf(st.buckets[key]), now);
    }
  }

  /** A run as it happened: the states between the calls, and what each call was told. */
  ghost predicate Trace(states: seq<State>, log: seq<Entry>, start: int) {
    && |states| == |log| + 1
    && (forall i :: 0 <= i < |log| ==> CallAt(states, log, i))
    && (forall i :: 0 <= i < |log| ==> start <= log[i].call.now)
    && (forall i, j :: 0 <= i <= j < |log| ==> log[i].call.now <= log[j].call.now)
  }

  ghost predicate CallAt(states: seq<State>, log: seq<Entry>, i: nat)
    requires i < |log| < |states|
  {
    (states[i + 1], log[i].ok) == Serve(states[i], log[i].call)
  }

  /** Every limit passed for the key is within the bound. */
  predicate KeyFits(log: seq<Entry>, key: Key, bound: Limit) {
    forall i :: 0 <= i < |log| && log[i].call.key == key ==> FitsIn(log[i].call.limit, bound)
  }

  /** The instant of the latest call before position `k`. */
  function Clock(log: seq<Entry>, start: int, k: nat): int
    requires k <= |log|
  {
    if k == 0 then start else log[k - 1].call.now
  }

  lemma {:induction false} TraceStaysOurs(states: seq<State>, log: seq<Entry>, start: int, key: Key, bound: Limit,
      k: nat)
    requires Trace(states, log, start) && states[0].buckets == map[] && KeyFits(log, key, bound) && k <= |log|
    ensures Ours(states[k], key, bound, Clock(log, start, k))
  {
    if k > 0 {
      TraceStaysOurs(states, log, start, key, bound, k - 1);
      assert CallAt(states, log, k - 1);
      CallSpends(states[k - 1], log[k - 1].call, key, bound);
    }
  }

  predicate Admits(e: Entry, key: Key) { e.ok && e.call.key == key }

  /** How many calls of the key were admitted. */
  function Admitted(log: seq<Entry>, key: Key): nat {
    if log == [] then 0 else Admitted(log[..|log| - 1], key) + if Admits(log[|log| - 1], key) then 1 else 0
  }

  lemma AdmittedOneMore(log: seq<Entry>, i: nat, k: nat, key: Key)
    requires i < k <= |log|
    ensures Admitted(log[i..k], key) == Admitted(log[i..k - 1], key) + if Admits(log[k - 1], key) then 1 else 0
  {
    assert log[i..k][..k - i - 1] == log[i..k - 1];
  }

  /** One call's share: what it spends is paid by the level before it and the gain since. */
  lemma CallIsPaid(st: State, e: Entry, st': State, key: Key, bound: Limit, from: int)
    requires Ours(st, key, bound, from) && Sane(bound) && from <= e.call.now
    requires (e.call.key == key ==> FitsIn(e.call.limit, bound)) && (st', e.ok) == Serve(st, e.call)
    ensures Level(st', key, bound, e.call.now) + Spent(Admits(e, key)) <=
      Level(st, key, bound, from) + Gain(bound.rate, e.call.now - from)
  {
    LevelGrowsAtRate(st, key, bound, from, e.call.now);
    CallSpends(st, e.call, key, bound);
  }

  /** A window of the trace: the calls `i` to `k`, none before `from`. */
  ghost predicate Window(states: seq<State>, log: seq<Entry>, start: int, i: nat, k: nat, from: int) {
    && Trace(states, log, start) && states[0].buckets == map[]
    && i <= k <= |log| && Clock(log, start, i) <= from && (i < k ==> from <= log[i].call.now)
  }

  function WindowEnd(log: seq<Entry>, i: nat, k: nat, from: int): int
    requires i <= k <= |log|
  {
    if k == i then from else log[k - 1].call.now
  }

  /** Admissions in a window and the level after it are covered by the level before it and the gain. */
  lemma {:induction false} WindowIsPaid(states: seq<State>, log: seq<Entry>, start: int, key: Key, bound: Limit, i: nat,
      k: nat, from: int)
    requires Window(states, log, start, i, k, from) && KeyFits(log, key, bound) && Sane(bound)
    ensures Admitted(log[i..k], key) as real + Level(states[k], key, bound, WindowEnd(log, i, k, from)) <=
      Level(states[i], key, bound, from) + Gain(bound.rate, WindowEnd(log, i, k, from) - from)
    decreases k - i
  {
    if k > i {
      WindowIsPaid(states, log, start, key, bound, i, k - 1, from);
      var mid := WindowEnd(log, i, k - 1, from);
      CallInWindowIsPaid(states, log, start, key, bound, i, k, from);
      GainsAdd(bound.rate, mid - from, log[k - 1].call.now - mid);
      AdmittedOneMore(log, i, k, key);
    }
  }

  lemma CallInWindowIsPaid(states: seq<State>, log: seq<Entry>, start: int, key: Key, bound: Limit, i: nat, k: nat,
      from: int)
    requires Window(states, log, start, i, k, from) && KeyFits(log, key, bound) && Sane(bound) && i < k
    ensures from <= WindowEnd(log, i, k - 1, from) <= log[k - 1].call.now
    ensures Level(states[k], key, bound, log[k - 1].call.now) + Spent(Admits(log[k - 1], key)) <=
      Level(states[k - 1], key, bound, WindowEnd(log, i, k - 1, from))
        + Gain(bound.rate, log[k - 1].call.now - WindowEnd(log, i, k - 1, from))
  {
    var st, e, st', mid := states[k - 1], log[k - 1], states[k], WindowEnd(log, i, k - 1, from);
    assert Clock(log, start, k - 1) <= mid;
    TraceStaysOurs(states, log, start, key, bound, k - 1);
    assert CallAt(states, log, k - 1);
    CallIsPaid(st, e, st', key, bound, mid);
  }

  /**
   On every run from an empty map, at capacity or below, whatever limits the other keys have, in every
   window [from, to]: a key is admitted at most the largest allowance passed for it plus what the window
   refills at the largest rate passed for it.
   */
  lemma AdmittedInWindow(states: seq<State>, log: seq<Entry>, start: int, key: Key, bound: Limit, i: nat, k: nat,
      from: int, to: int)
    requires Window(states, log, start, i, k, from) && KeyFits(log, key, bound) && Sane(bound)
    requires from <= to && (i < k ==> log[k - 1].call.now <= to)
    ensures Admitted(log[i..k], key) as real <= bound.max + Gain(bound.rate, to - from)
  {
    var last := WindowEnd(log, i, k, from);
    WindowIsPaid(states, log, start, key, bound, i, k, from);
    TraceStaysOurs(states, log, start, key, bound, i);
    TraceStaysOurs(states, log, start, key, bound, k);
    LevelInRange(states[i], key, bound, from);
    LevelInRange(states[k], key, bound, last);
    GainsAdd(bound.rate, last - from, to - last);
    GainNonNegative(bound.rate, to - last);
  }

  // ---- limits that refill too slowly ----------------------------------------------------------------

  /** No key that passes this limit can tell sweeping from never forgetting, whatever the others do. */
  ghost predicate SweepInvisible(l: Limit) {
    forall cap: nat, start: int, calls: seq<Call>, to: int, key: Key ::
      Passes(calls, key, l) && Monotone(calls, start, to) && HasRoom(State(map[], start, cap), calls, key) ==>
        SameAnswers(calls, key, Decisions(State(map[], start, cap), calls), DecisionsForever(map[], calls))
  }

  /** `n` calls of one key at one instant. */
  function Burst(key: Key, l: Limit, n: nat, now: int): seq<Call> {
    if n == 0 then [] else [Call(key, l, now)] + Burst(key, l, n - 1, now)
  }

  function Trues(n: nat): (ts: seq<bool>)
    ensures |ts| == n && forall i :: 0 <= i < n ==> ts[i]
  {
    if n == 0 then [] else [true] + Trues(n - 1)
  }

  /** The answers of any limiter, given how it handles one call. */
  function Answers<S>(step: (S, Call) -> (S, bool), s: S, calls: seq<Call>): seq<bool>
    decreases |calls|
  {
    if calls == [] then [] else [step(s, calls[0]).1] + Answers(step, step(s, calls[0]).0, calls[1..])
  }

  function SweepStep(): (State, Call) -> (State, bool) {
    (st: State, c: Call) => Serve(st, c)
  }

  function ForeverStep(): (map<Key, Bucket>, Call) -> (map<Key, Bucket>, bool) {
    (all: map<Key, Bucket>, c: Call) => ServeForever(all, c)
  }

  lemma {:induction false} DecisionsAreAnswers(st: State, calls: seq<Call>)
    ensures Decisions(st, calls) == Answers(SweepStep(), st, calls)
    decreases |calls|
  {
    if calls != [] {
      DecisionsAreAnswers(Serve(st, calls[0]).0, calls[1..]);
    }
  }

  lemma {:induction false} ForeverDecisionsAreAnswers(all: map<Key, Bucket>, calls: seq<Call>)
    ensures DecisionsForever(all, calls) == Answers(ForeverStep(), all, calls)
    decreases |calls|
  {
    if calls != [] {
      ForeverDecisionsAreAnswers(ServeForever(all, calls[0]).0, calls[1..]);
    }
  }

  lemma BurstFirst(key: Key, l: Limit, n: nat, now: int, rest: seq<Call>)
    requires n >= 1
    ensures Burst(key, l, n, now) + rest == [Call(key, l, now)] + (Burst(key, l, n - 1, now) + rest)
    ensures (Burst(key, l, n, now) + rest)[0] == Call(key, l, now)
    ensures (Burst(key, l, n, now) + rest)[1..] == Burst(key, l, n - 1, now) + rest
  {
  }

  /** A limiter that steps down a ladder of states admits a burst whole. */
  lemma {:induction false} BurstDown<S>(step: (S, Call) -> (S, bool), ladder: seq<S>, key: Key, l: Limit, n: nat,
      now: int, rest: seq<Call>)
    requires n < |ladder|
    requires forall k :: 1 <= k <= n ==> step(ladder[k], Call(key, l, now)) == (ladder[k - 1], true)
    ensures Answers(step, ladder[n], Burst(key, l, n, now) + rest) == Trues(n) + Answers(step, ladder[0], rest)
  {
    if n == 0 {
      assert Burst(key, l, n, now) + rest == rest;
    } else {
      BurstFirst(key, l, n, now, rest);
      BurstDown(step, ladder, key, l, n - 1, now, rest);
      assert step(ladder[n], Call(key, l, now)) == (ladder[n - 1], true);
      assert Answers(step, ladder[n], Burst(key, l, n, now) + rest) == [true]
        + Answers(step, ladder[n - 1], Burst(key, l, n - 1, now) + rest);
    }
  }

  /** The key's bucket, last touched now. */
  function Only(key: Key, tokens: real, l: Limit, now: int): map<Key, Bucket> {
    map[key := Bucket(tokens, l.max, l.rate, now)]
  }

  lemma OneCall(key: Key, tokens: real, l: Limit, now: int)
    requires tokens <= l.max
    ensures AllowForever(Only(key, tokens, l, now), key, l, now) ==
      if tokens < 1.0 then (Only(key, tokens, l, now), false) else (Only(key, tokens - 1.0, l, now), true)
  {
    assert Gain(l.rate, 0) == 0.0;
    assert Only(key, tokens, l, now)[key := Bucket(tokens, l.max, l.rate, now)] == Only(key, tokens, l, now);
    assert Only(key, tokens, l, now)[key := Bucket(tokens - 1.0, l.max, l.rate, now)]
      == Only(key, tokens - 1.0, l, now);
  }

  /** Within the same minute and below capacity nothing is swept. */
  lemma OneSweptCall(key: Key, tokens: real, l: Limit, now: int, cap: nat)
    requires tokens <= l.max && cap >= 2
    ensures var (all, ok) := AllowForever(Only(key, tokens, l, now), key, l, now);
      Allow(State(Only(key, tokens, l, now), now, cap), key, l, now) == (State(all, now, cap), ok)
  {
    assert |Only(key, tokens, l, now)| == 1;
  }

  /** A first call finds a full bucket, whether it is new or was swept away. */
  lemma FirstCall(key: Key, n: nat, l: Limit, now: int, cap: nat, st: State)
    requires l.max == n as real && n >= 1 && cap >= 2 && Sweep(st, now) == State(map[], now, cap)
    ensures Allow(st, key, l, now) == (State(Only(key, (n - 1) as real, l, now), now, cap), true)
    ensures AllowForever(map[], key, l, now) == (Only(key, (n - 1) as real, l, now), true)
  {
    assert Gain(l.rate, 0) == 0.0;
    var none: map<Key, Bucket> := map[];
    assert none[key := Bucket((n - 1) as real, l.max, l.rate, now)] == Only(key, (n - 1) as real, l, now);
  }

  function Ladder(key: Key, n: nat, l: Limit, now: int): seq<map<Key, Bucket>> {
    seq(n, k requires 0 <= k < n => Only(key, k as real, l, now))
  }

  /** The states from empty to almost full, then the one the burst starts from. */
  function SweptLadder(key: Key, n: nat, l: Limit, now: int, cap: nat, st: State): seq<State> {
    seq(n, k requires 0 <= k < n => State(Only(key, k as real, l, now), now, cap)) + [st]
  }

  /** A burst that meets a swept map is admitted whole, and leaves the bucket empty. */
  lemma FullBurst(key: Key, n: nat, l: Limit, now: int, cap: nat, st: State, rest: seq<Call>)
    requires n >= 1 && l.max == n as real && cap >= 2 && Sweep(st, now) == State(map[], now, cap)
    ensures Answers(SweepStep(), st, Burst(key, l, n, now) + rest) ==
      Trues(n) + Answers(SweepStep(), State(Only(key, 0.0, l, now), now, cap), rest)
  {
    var ladder := SweptLadder(key, n, l, now, cap, st);
    forall k | 1 <= k <= n ensures SweepStep()(ladder[k], Call(key, l, now)) == (ladder[k - 1], true) {
      if k == n {
        FirstCall(key, n, l, now, cap, st);
      } else {
        OneCall(key, k as real, l, now);
        OneSweptCall(key, k as real, l, now, cap);
        assert k as real - 1.0 == (k - 1) as real;
      }
    }
    BurstDown(SweepStep(), ladder, key, l, n, now, rest);
  }

  lemma FullBurstForever(key: Key, n: nat, l: Limit, now: int, rest: seq<Call>)
    requires n >= 1 && l.max == n as real
    ensures Answers(ForeverStep(), map[], Burst(key, l, n, now) + rest) ==
      Trues(n) + Answers(ForeverStep(), Only(key, 0.0, l, now), rest)
  {
    var ladder := Ladder(key, n, l, now) + [map[]];
    forall k | 1 <= k <= n ensures ForeverStep()(ladder[k], Call(key, l, now)) == (ladder[k - 1], true) {
      if k == n {
        FirstCall(key, n, l, now, 2, State(map[], now, 2));
      } else {
        OneCall(key, k as real, l, now);
        assert k as real - 1.0 == (k - 1) as real;
      }
    }
    BurstDown(ForeverStep(), ladder, key, l, n, now, rest);
  }

  /** A burst is admitted whole only if the bucket holds that much. */
  lemma {:induction false} WholeBurstNeedsTokens(key: Key, tokens: real, m: nat, l: Limit, now: int)
    requires tokens <= l.max && m >= 1
    ensures Answers(ForeverStep(), Only(key, tokens, l, now), Burst(key, l, m, now)) == Trues(m) ==> m as real <= tokens
  {
    OneCall(key, tokens, l, now);
    var calls := Burst(key, l, m, now);
    assert calls[0] == Call(key, l, now) && calls[1..] == Burst(key, l, m - 1, now);
    var ds := Answers(ForeverStep(), Only(key, tokens, l, now), calls);
    if ds == Trues(m) {
      assert ds[0] && ds[1..] == Trues(m)[1..] == Trues(m - 1);
      if m > 1 {
        WholeBurstNeedsTokens(key, tokens - 1.0, m - 1, l, now);
      }
    }
  }

  /** Drain, wait until the bucket is dropped, drain again. */
  function TwoBursts(key: Key, l: Limit, n: nat): seq<Call> {
    Burst(key, l, n, 0) + Burst(key, l, n, IDLE_TTL + 1)
  }

  /** A burst at `now` followed by calls from then on. */
  lemma {:induction false} BurstMonotone(key: Key, l: Limit, n: nat, from: int, now: int, rest: seq<Call>, to: int)
    requires from <= now && Monotone(rest, now, to)
    ensures Monotone(Burst(key, l, n, now) + rest, from, to)
    decreases n
  {
    if n == 0 {
      assert Burst(key, l, n, now) + rest == rest;
    } else {
      BurstMonotone(key, l, n - 1, now, now, rest, to);
      BurstFirst(key, l, n, now, rest);
    }
  }

  /** The code admits both bursts whole. */
  lemma SweptTwoBursts(key: Key, n: nat, l: Limit, cap: nat)
    requires n >= 1 && l.max == n as real && cap >= 2
    ensures Decisions(State(map[], 0, cap), TwoBursts(key, l, n)) == Trues(n) + Trues(n)
  {
    var later := IDLE_TTL + 1;
    var second := Burst(key, l, n, later);
    FullBurst(key, n, l, 0, cap, State(map[], 0, cap), second);
    var drained := State(Only(key, 0.0, l, 0), 0, cap);
    assert Keep(drained.buckets, later) == map[];
    FullBurst(key, n, l, later, cap, drained, []);
    assert second + [] == second;
    assert Trues(n) + [] == Trues(n);
    DecisionsAreAnswers(State(map[], 0, cap), TwoBursts(key, l, n));
  }

  /** The limiter that forgets nothing admits the second only if the bucket refilled. */
  lemma ForeverTwoBursts(key: Key, n: nat, l: Limit)
    requires n >= 1 && l.max == n as real && l.rate >= 0.0
    ensures DecisionsForever(map[], TwoBursts(key, l, n)) == Trues(n) + Trues(n) ==> RefillsInTime(l)
  {
    var second := Burst(key, l, n, IDLE_TTL + 1);
    FullBurstForever(key, n, l, 0, second);
    ForeverDecisionsAreAnswers(map[], TwoBursts(key, l, n));
    var ds := Answers(ForeverStep(), Only(key, 0.0, l, 0), second);
    if DecisionsForever(map[], TwoBursts(key, l, n)) == Trues(n) + Trues(n) {
      SameTail(Trues(n), ds, Trues(n));
      WaitedBurst(key, n, l);
    }
  }

  lemma SameTail(a: seq<bool>, b: seq<bool>, c: seq<bool>)
    requires a + b == a + c
    ensures b == c
  {
    assert b == (a + b)[|a|..];
    assert c == (a + c)[|a|..];
  }

  lemma WaitedBurst(key: Key, n: nat, l: Limit)
    requires n >= 1 && l.max == n as real && l.rate >= 0.0
    requires Answers(ForeverStep(), Only(key, 0.0, l, 0), Burst(key, l, n, IDLE_TTL + 1)) == Trues(n)
    ensures RefillsInTime(l)
  {
    var later := IDLE_TTL + 1;
    var calls := Burst(key, l, n, later);
    var level := Refill(Bucket(0.0, l.max, l.rate, 0), later);
    GainIsProduct(l.rate, later);
    assert calls[0] == Call(key, l, later) && calls[1..] == Burst(key, l, n - 1, later);
    var ds := Answers(ForeverStep(), Only(key, 0.0, l, 0), calls);
    assert ds[0] && ds[1..] == Trues(n)[1..] == Trues(n - 1);
    assert AllowForever(Only(key, 0.0, l, 0), key, l, later) == (Only(key, level - 1.0, l, later), true) by {
      assert Only(key, 0.0, l, 0)[key := Bucket(level - 1.0, l.max, l.rate, later)] == Only(key, level - 1.0, l, later);
    }
    if n > 1 {
      WholeBurstNeedsTokens(key, level - 1.0, n - 1, l, later);
    }
  }

  /**
   When forgetting goes unnoticed, exactly: for a limit of whole tokens, on all runs in which the key
   finds room, if and only if an empty bucket refills within the shortest idle time that drops it.
   */
  lemma SweepInvisibleIff(l: Limit, n: nat)
    requires n >= 1 && l.max == n as real && l.rate >= 0.0
    ensures SweepInvisible(l) <==> RefillsInTime(l)
  {
    if RefillsInTime(l) {
      forall cap: nat, start: int, calls: seq<Call>, to: int, key: Key
        | Passes(calls, key, l) && Monotone(calls, start, to) && HasRoom(State(map[], start, cap), calls, key)
        ensures SameAnswers(calls, key, Decisions(State(map[], start, cap), calls), DecisionsForever(map[], calls))
      {
        SweepingIsInvisible(cap, start, calls, to, key, l);
      }
    }
    if SweepInvisible(l) {
      TwoBurstsAnsweredAlike("key", n, l);
      SweptTwoBursts("key", n, l, 2);
      ForeverTwoBursts("key", n, l);
    }
  }

  lemma TwoBurstsAnsweredAlike(key: Key, n: nat, l: Limit)
    requires SweepInvisible(l)
    ensures Decisions(State(map[], 0, 2), TwoBursts(key, l, n)) == DecisionsForever(map[], TwoBursts(key, l, n))
  {
    var later := IDLE_TTL + 1;
    var first, second := Burst(key, l, n, 0), Burst(key, l, n, later);
    var calls := TwoBursts(key, l, n);
    BurstMonotone(key, l, n, 0, later, [], later);
    assert second + [] == second;
    BurstMonotone(key, l, n, 0, 0, second, later);
    BurstKeys(key, l, n, 0);
    BurstKeys(key, l, n, later);
    assert forall i :: 0 <= i < |calls| ==> calls[i].key in {key} && calls[i].limit == l;
    FewKeysHaveRoom(State(map[], 0, 2), calls, {key}, key);
    var ds, es := Decisions(State(map[], 0, 2), calls), DecisionsForever(map[], calls);
    assert Passes(calls, key, l) && Monotone(calls, 0, later) && HasRoom(State(map[], 0, 2), calls, key);
    assert SameAnswers(calls, key, ds, es);
    assert forall i :: 0 <= i < |calls| ==> calls[i].key == key && ds[i] == es[i];
  }

  lemma {:induction false} BurstKeys(key: Key, l: Limit, n: nat, now: int)
    ensures forall i :: 0 <= i < |Burst(key, l, n, now)| ==>
      Burst(key, l, n, now)[i].key == key && Burst(key, l, n, now)[i].limit == l
  {
    if n > 0 {
      BurstKeys(key, l, n - 1, now);
    }
  }

  /** A slower limit admits two allowances within a window that should admit fewer. */
  lemma SlowLimitExceedsItsBound(key: Key, n: nat, l: Limit, cap: nat)
    requires n >= 1 && l.max == n as real && l.rate >= 0.0 && cap >= 2 && !RefillsInTime(l)
    ensures Decisions(State(map[], 0, cap), TwoBursts(key, l, n)) == Trues(n) + Trues(n)
    ensures l.max + Gain(l.rate, IDLE_TTL + 1) < 2.0 * n as real
  {
    SweptTwoBursts(key, n, l, cap);
    GainIsProduct(l.rate, IDLE_TTL + 1);
  }

  /** Password-reset mail: three links, and one more an hour. */
  const RESET := Limit(3.0, 1.0 / 3600.0)

  /** Its bucket is forgotten while still empty, so it does not keep to that. */
  lemma ResetBucketForgets()
    ensures !RefillsInTime(RESET) && !SweepInvisible(RESET)
  {
    SweepInvisibleIff(RESET, 3);
  }
}
