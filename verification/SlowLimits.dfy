/**
 What the limiter still guarantees for limits of any speed. A bucket may be dropped before it has
 refilled, and then starts full again, but each time only after an idle span of its own.
 */
module SlowLimits {
  import opened Limiter

  /** The shortest idle time that drops a bucket which has not refilled. */
  const SPAN := IDLE_TTL + 1

  function Times(x: real, n: nat): real {
    if n == 0 then 0.0 else Times(x, n - 1) + x
  }

  lemma {:induction false} TimesIsProduct(x: real, n: nat)
    ensures Times(x, n) == x * n as real
  {
    if n > 0 {
      TimesIsProduct(x, n - 1);
    }
  }

  lemma {:induction false} TimesGrows(x: real, m: nat, n: nat)
    requires x >= 0.0 && m <= n
    ensures Times(x, m) <= Times(x, n)
  {
    if m < n {
      TimesGrows(x, m, n - 1);
    }
  }

  /**
   The books of one key in a window that began at `from`: what was admitted and what is left is covered
   by the allowances of the start and of each drop, and what was gained. Every drop had an idle span in
   the window before it; a bucket last touched before the window has admitted nothing in it.
   */
  predicate Accounted(st: State, key: Key, bound: Limit, from: int, at: int, admitted: nat, drops: nat) {
    && from <= at && Kept(st, key, bound, at) && drops * SPAN <= at - from
    && admitted as real + Level(st, key, bound, at) <= Times(bound.max, drops + 1) + Gain(bound.rate, at - from)
    && (key in st.buckets ==>
          if st.buckets[key].last < from then admitted == 0 && drops == 0
          else drops * SPAN <= st.buckets[key].last - from)
  }

  lemma StillAccounted(st: State, key: Key, bound: Limit, from: int, at: int, later: int, admitted: nat, drops: nat)
    requires Accounted(st, key, bound, from, at, admitted, drops) && Sane(bound) && at <= later
    ensures Accounted(st, key, bound, from, later, admitted, drops)
  {
    LevelGrowsAtRate(st, key, bound, at, later);
    GainsAdd(bound.rate, at - from, later - at);
  }

  /** A drop is paid for by the bucket's being full, by its idle span, or by what it was before the window. */
  lemma SweepAccounted(st: State, key: Key, bound: Limit, from: int, at: int, admitted: nat, drops: nat)
      returns (more: nat)
    requires Accounted(st, key, bound, from, at, admitted, drops) && Sane(bound)
    ensures Accounted(Sweep(st, at), key, bound, from, at, admitted, more)
  {
    more := drops;
    if key in st.buckets && key !in Sweep(st, at).buckets {
      var b := st.buckets[key];
      LevelInRange(st, key, bound, at);
      GainNonNegative(bound.rate, at - from);
      if Full(b, at) {
        StaysFull(b, LimitOf(b), at, at);
      } else if from <= b.last {
        more := drops + 1;
      }
    }
  }

  lemma ServeAccounted(st: State, c: Call, key: Key, bound: Limit, from: int, admitted: nat, drops: nat)
    requires Accounted(Sweep(st, c.now), key, bound, from, c.now, admitted, drops)
    requires c.key == key ==> Within(c.limit, bound)
    ensures var (st', ok) := Serve(st, c);
      Accounted(st', key, bound, from, c.now, admitted + (if ok && c.key == key then 1 else 0), drops)
  {
    var swept := Sweep(st, c.now);
    if c.key == key && Room(swept, key) {
      var b := BucketFor(swept.buckets, key, c.limit, c.now);
      TakeKeepsOk(b, LimitOf(b), c.now);
      RefillBounds(b, LimitOf(b), c.now);
    }
  }

  /** Every limit passed for the key is within the bound, however slow. */
  predicate KeyWithin(log: seq<Entry>, key: Key, bound: Limit) {
    forall i :: 0 <= i < |log| && log[i].call.key == key ==> Within(log[i].call.limit, bound)
  }

  lemma ServeKeeps(st: State, c: Call, key: Key, bound: Limit)
    requires Kept(st, key, bound, c.now) && (c.key == key ==> Within(c.limit, bound))
    ensures Kept(Serve(st, c).0, key, bound, c.now)
  {
    var swept := Sweep(st, c.now);
    if c.key == key && Room(swept, key) {
      var b := BucketFor(swept.buckets, key, c.limit, c.now);
      TakeKeepsOk(b, LimitOf(b), c.now);
    }
  }

  lemma {:induction false} TraceKeeps(states: seq<State>, log: seq<Entry>, start: int, key: Key, bound: Limit, k: nat)
    requires Trace(states, log, start) && states[0].buckets == map[] && KeyWithin(log, key, bound) && k <= |log|
    ensures Kept(states[k], key, bound, Clock(log, start, k))
  {
    if k > 0 {
      TraceKeeps(states, log, start, key, bound, k - 1);
      assert CallAt(states, log, k - 1);
      ServeKeeps(states[k - 1], log[k - 1].call, key, bound);
    }
  }

  lemma {:induction false} WindowAccounted(states: seq<State>, log: seq<Entry>, start: int, key: Key, bound: Limit,
      i: nat, k: nat, from: int) returns (drops: nat)
    requires Window(states, log, start, i, k, from) && KeyWithin(log, key, bound) && Sane(bound)
    ensures Accounted(states[k], key, bound, from, WindowEnd(log, i, k, from), Admitted(log[i..k], key), drops)
    decreases k - i
  {
    if k == i {
      TraceKeeps(states, log, start, key, bound, k);
      drops := 0;
      LevelInRange(states[k], key, bound, from);
      assert Admitted(log[i..k], key) == 0;
    } else {
      var c, mid := log[k - 1].call, WindowEnd(log, i, k - 1, from);
      drops := WindowAccounted(states, log, start, key, bound, i, k - 1, from);
      var admitted := Admitted(log[i..k - 1], key);
      StillAccounted(states[k - 1], key, bound, from, mid, c.now, admitted, drops);
      drops := SweepAccounted(states[k - 1], key, bound, from, c.now, admitted, drops);
      ServeAccounted(states[k - 1], c, key, bound, from, admitted, drops);
      assert CallAt(states, log, k - 1);
      AdmittedOneMore(log, i, k, key);
    }
  }

  lemma SpansFit(drops: nat, length: nat)
    requires drops * SPAN <= length
    ensures drops <= length / SPAN
  {
  }

  lemma AllowancesCover(st: State, key: Key, bound: Limit, from: int, to: int, admitted: nat, drops: nat)
    requires Accounted(st, key, bound, from, to, admitted, drops) && Sane(bound)
    ensures admitted as real <= bound.max * (1 + (to - from) / SPAN) as real + Gain(bound.rate, to - from)
  {
    var spans := (to - from) / SPAN;
    LevelInRange(st, key, bound, to);
    SpansFit(drops, to - from);
    TimesGrows(bound.max, drops + 1, 1 + spans);
    TimesIsProduct(bound.max, 1 + spans);
  }

  /**
   On every run from an empty map, whatever the other keys do, and however slowly its limits refill: in
   every window [from, to] a key is admitted at most its largest allowance, once and once more for every
   whole idle span the window has room for, plus what the window refills at its largest rate.
   */
  lemma AdmittedAtAnySpeed(states: seq<State>, log: seq<Entry>, start: int, key: Key, bound: Limit, i: nat, k: nat,
      from: int, to: int)
    requires Window(states, log, start, i, k, from) && KeyWithin(log, key, bound) && Sane(bound)
    requires from <= to && (i < k ==> log[k - 1].call.now <= to)
    ensures Admitted(log[i..k], key) as real <= bound.max * (1 + (to - from) / SPAN) as real
      + Gain(bound.rate, to - from)
  {
    var last, admitted := WindowEnd(log, i, k, from), Admitted(log[i..k], key);
    var drops := WindowAccounted(states, log, start, key, bound, i, k, from);
    StillAccounted(states[k], key, bound, from, last, to, admitted, drops);
    AllowancesCover(states[k], key, bound, from, to, admitted, drops);
  }
}
