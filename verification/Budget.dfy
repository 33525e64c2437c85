/** The relay-wide daily budget over whole call sequences with a fixed limit. */
module Budget {
  import opened Optional
  import opened Coordinator

  function Day(now: int): int { now / DAY_MS }

  /** The calls' times never go back to an earlier UTC day. */
  predicate DaysAdvance(from: Option<int>, times: seq<int>) {
    && (from.Some? ==> forall i :: 0 <= i < |times| ==> from.value <= Day(times[i]))
    && (forall i, j :: 0 <= i < j < |times| ==> Day(times[i]) <= Day(times[j]))
  }

  function Spend(s: Storage, limit: nat, times: seq<int>): (r: (Storage, seq<bool>))
    ensures |r.1| == |times|
    decreases |times|
  {
    if times == [] then (s, [])
    else
      var (s1, answer) := BudgetTurn(s, limit, times[0]);
      var (s2, rest) := Spend(s1, limit, times[1..]);
      (s2, [answer.allowed] + rest)
  }

  function Calls(times: seq<int>, day: int): nat {
    if times == [] then 0 else (if Day(times[0]) == day then 1 else 0) + Calls(times[1..], day)
  }

  function Admitted(times: seq<int>, answers: seq<bool>, day: int): nat
    requires |times| == |answers|
  {
    if times == [] then 0
    else (if Day(times[0]) == day && answers[0] then 1 else 0) + Admitted(times[1..], answers[1..], day)
  }

  function Used(s: Storage, day: int): nat {
    if s.budgetDay == Some(day) && s.budgetUsed.Some? then s.budgetUsed.value else 0
  }

  function Min(a: int, b: int): int { if a < b then a else b }

  /** One turn on or before the day: what it adds to the day's count, and when. */
  lemma TurnCounts(s: Storage, limit: nat, now: int, day: int)
    requires Used(s, day) <= limit && Day(now) <= day && (s.budgetDay.Some? ==> s.budgetDay.value <= Day(now))
    ensures var (s1, answer) := BudgetTurn(s, limit, now);
      && s1.budgetDay.Some? && s1.budgetDay.value <= Day(now)
      && (Day(now) == day ==> s1.budgetDay == Some(day) && (answer.allowed <==> Used(s, day) < limit))
      && Used(s1, day) == Used(s, day) + if Day(now) == day && answer.allowed then 1 else 0
  {
  }

  /** From any stored count: each day admits what is left of the limit, and no more than it is asked. */
  lemma {:induction false} SpendExactly(s: Storage, limit: nat, times: seq<int>, day: int)
    requires DaysAdvance(s.budgetDay, times) && Used(s, day) <= limit
    requires s.budgetDay.Some? ==> s.budgetDay.value <= day
    ensures Admitted(times, Spend(s, limit, times).1, day) == Min(limit - Used(s, day), Calls(times, day))
    ensures times != [] && Day(times[|times| - 1]) == day ==>
      Spend(s, limit, times).0.budgetDay == Some(day) &&
      Used(Spend(s, limit, times).0, day) == Used(s, day) + Admitted(times, Spend(s, limit, times).1, day)
    decreases |times|
  {
    if times != [] {
      var (s1, answer) := BudgetTurn(s, limit, times[0]);
      assert Spend(s, limit, times).1[1..] == Spend(s1, limit, times[1..]).1;
      if Day(times[0]) <= day {
        TurnCounts(s, limit, times[0], day);
        SpendExactly(s1, limit, times[1..], day);
      } else {
        NoCalls(times, day);
        NoneAdmitted(times, Spend(s, limit, times).1, day);
      }
    }
  }

  lemma {:induction false} NoCalls(times: seq<int>, day: int)
    requires forall i :: 0 <= i < |times| ==> day < Day(times[i])
    ensures Calls(times, day) == 0
  {
    if times != [] {
      NoCalls(times[1..], day);
    }
  }

  lemma {:induction false} NoneAdmitted(times: seq<int>, answers: seq<bool>, day: int)
    requires |times| == |answers| && forall i :: 0 <= i < |times| ==> day < Day(times[i])
    ensures Admitted(times, answers, day) == 0
  {
    if times != [] {
      NoneAdmitted(times[1..], answers[1..], day);
    }
  }

  /** On a fresh counter every day admits exactly the smaller of the limit and its calls. */
  lemma DailyBudgetExact(limit: nat, times: seq<int>, day: int)
    requires DaysAdvance(None, times)
    ensures Admitted(times, Spend(FRESH, limit, times).1, day) == Min(limit, Calls(times, day))
    ensures times != [] && Day(times[|times| - 1]) == day ==>
      Used(Spend(FRESH, limit, times).0, day) == Admitted(times, Spend(FRESH, limit, times).1, day)
  {
    SpendExactly(FRESH, limit, times, day);
  }

  /** How often the calls come to a day: the blocks of consecutive calls on it that begin here. */
  function Visits(there: bool, times: seq<int>, day: int): nat
    decreases |times|
  {
    if times == [] then 0
    else if Day(times[0]) == day then (if there then 0 else 1) + Visits(true, times[1..], day)
    else Visits(false, times[1..], day)
  }

  /** One turn of any day, with a limit that admits something. */
  lemma AnyTurn(s: Storage, limit: nat, now: int, day: int)
    requires limit > 0 && Used(s, day) <= limit
    ensures var (s1, answer) := BudgetTurn(s, limit, now);
      && s1.budgetDay == Some(Day(now)) && Used(s1, day) <= limit
      && (Day(now) == day ==>
         && (answer.allowed <==> Used(s, day) < limit)
         && Used(s1, day) == Used(s, day) + (if answer.allowed then 1 else 0))
      && (Day(now) == day ==> Used(s1, day) > 0)
      && (Day(now) != day ==> Used(s1, day) == 0)
  {
  }

  /**
   With no hypothesis on the clock: a single visit is held to the limit, and two or more admit every
   call as long as they fit it together, and otherwise more than the limit.
   */
  lemma {:induction false} VisitsDecide(s: Storage, limit: nat, times: seq<int>, day: int)
    requires limit > 0 && Used(s, day) <= limit && (s.budgetDay == Some(day) <==> Used(s, day) > 0)
    ensures var u, a, c, v := Used(s, day), Admitted(times, Spend(s, limit, times).1, day), Calls(times, day),
      Visits(s.budgetDay == Some(day), times, day);
      && (v == 0 || (v == 1 && u == 0) ==> a == Min(limit - u, c))
      && (v > 1 || (v == 1 && u > 0) ==> if u + c > limit then u + a > limit else a == c)
    decreases |times|
  {
    if times != [] {
      var (s1, answer) := BudgetTurn(s, limit, times[0]);
      assert Spend(s, limit, times).1[1..] == Spend(s1, limit, times[1..]).1;
      AnyTurn(s, limit, times[0], day);
      VisitsDecide(s1, limit, times[1..], day);
      VisitedOnce(times[1..], day);
    }
  }

  /** No visit, no call; a visit, a call. */
  lemma {:induction false} VisitedOnce(times: seq<int>, day: int)
    ensures Visits(false, times, day) <= Calls(times, day)
    ensures Visits(false, times, day) == 0 ==> Calls(times, day) == 0
    ensures Visits(true, times, day) <= Visits(false, times, day) <= Visits(true, times, day) + 1
    decreases |times|
  {
    if times != [] {
      VisitedOnce(times[1..], day);
    }
  }

  /**
   When a day admits exactly the smaller of the limit and its calls, whatever the clock does: exactly
   when the limit is zero, the calls fit it, or the clock comes to that day only once.
   */
  lemma BudgetExactIff(limit: nat, times: seq<int>, day: int)
    ensures Admitted(times, Spend(FRESH, limit, times).1, day) == Min(limit, Calls(times, day)) <==>
      limit == 0 || Calls(times, day) <= limit || Visits(false, times, day) <= 1
  {
    if limit == 0 {
      NothingAdmitted(FRESH, times, day);
    } else {
      VisitsDecide(FRESH, limit, times, day);
    }
  }

  lemma {:induction false} NothingAdmitted(s: Storage, times: seq<int>, day: int)
    ensures Admitted(times, Spend(s, 0, times).1, day) == 0
    decreases |times|
  {
    if times != [] {
      var (s1, answer) := BudgetTurn(s, 0, times[0]);
      assert Spend(s, 0, times).1[1..] == Spend(s1, 0, times[1..]).1;
      NothingAdmitted(s1, times[1..], day);
    }
  }

  /** One call a day, and a clock that steps back: the first day admits two. */
  lemma SteppingBackOverspends()
    ensures var times := [0, DAY_MS, 0];
      Admitted(times, Spend(FRESH, 1, times).1, 0) == 2
  {
    var times := [0, DAY_MS, 0];
    assert times[1..] == [DAY_MS, 0] && times[1..][1..] == [0] && times[1..][1..][1..] == [];
    assert Visits(false, [], 0) == 0 && Visits(false, [0], 0) == 1 && Visits(false, times, 0) == 2;
    assert Calls([], 0) == 0 && Calls([0], 0) == 1 && Calls(times, 0) == 2;
    AtMostCalls(times, Spend(FRESH, 1, times).1, 0);
    VisitsDecide(FRESH, 1, times, 0);
  }

  lemma {:induction false} AtMostCalls(times: seq<int>, answers: seq<bool>, day: int)
    requires |times| == |answers|
    ensures Admitted(times, answers, day) <= Calls(times, day)
  {
    if times != [] {
      AtMostCalls(times[1..], answers[1..], day);
    }
  }
}
