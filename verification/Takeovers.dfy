/**
 When a token changes hands: what a takeover has seen, how old it was, and what can still come between
 the answer it acts on and the turn in which it acts.
 */
module Takeovers {
  import opened Optional
  import opened Coordinator
  import opened TokenProtocol

  /** Only an answer about a claim at least a minute old, whose owner's key is inactive, leads to a takeover. */
  lemma JudgeIff(sys: System, i: nat, now: int)
    requires Enabled(sys, Judge(i, now))
    ensures var phase := Step(sys, Judge(i, now)).sends[i].phase;
      if now - sys.sends[i].phase.claimedAt >= 60_000 && sys.sends[i].phase.owner in sys.revoked
      then phase == Swapping(sys.sends[i].phase.owner)
      else phase == Denied
  {
  }

  /** The takeover is let through exactly if the token is free, or still the expected key's, or its own by now. */
  lemma SwapTakesIff(sys: System, i: nat, now: int)
    requires Enabled(sys, Swap(i, now)) && sys.store.seeded
    ensures var next := Step(sys, Swap(i, now));
      && (next.sends[i].phase.Sending? <==>
            sys.store.owner in {None, Some(sys.sends[i].phase.from), Some(sys.sends[i].key)})
      && (next.sends[i].phase.Sending? ==> next.store.owner == Some(sys.sends[i].key))
      && (!next.sends[i].phase.Sending? ==> next.store.owner == sys.store.owner)
  {
  }

  lemma PrefixStep(sys: System, es: seq<Event>, j: nat)
    requires es != [] && Runs(sys, es) && j < |es|
    requires j > 0 ==> Runs(Step(sys, es[0]), es[1..][..j - 1])
    ensures Runs(sys, es[..j])
    ensures j > 0 ==> Run(sys, es[..j]) == Run(Step(sys, es[0]), es[1..][..j - 1])
  {
    if j > 0 {
      assert es[..j][1..] == es[1..][..j - 1] && es[..j][0] == es[0];
    }
  }

  /**
   Whoever is about to take a token over from a key was told, at some point of the run, that the key's
   claim was at least a minute old and its key inactive.
   */
  lemma {:induction false} TakeoverWasJudged(sys: System, es: seq<Event>, p: nat) returns (j: nat)
    requires Runs(sys, es) && p < |Run(sys, es).sends| && Run(sys, es).sends[p].phase.Swapping?
    requires p < |sys.sends| ==> !sys.sends[p].phase.Swapping?
    ensures j < |es| && Runs(sys, es[..j]) && es[j].Judge? && es[j].i == p
    ensures var mid, from := Run(sys, es[..j]), Run(sys, es).sends[p].phase.from;
      && p < |mid.sends| && mid.sends[p].phase.Asked? && mid.sends[p].phase.owner == from && from in mid.revoked
      && es[j].now - mid.sends[p].phase.claimedAt >= 60_000
    decreases |es|
  {
    var next := Step(sys, es[0]);
    if p < |next.sends| && next.sends[p].phase.Swapping? {
      j := 0;
      assert es[0].Judge? && es[0].i == p;
      SwappingStays(next, es[1..], p);
      assert Run(sys, es[..0]) == sys;
    } else {
      var k := TakeoverWasJudged(next, es[1..], p);
      j := k + 1;
      PrefixStep(sys, es, j);
    }
  }

  /** A send that is about to take over waits for nothing but its own turn. */
  lemma {:induction false} SwappingStays(sys: System, es: seq<Event>, p: nat)
    requires Runs(sys, es) && p < |sys.sends| && sys.sends[p].phase.Swapping?
    requires p < |Run(sys, es).sends| && Run(sys, es).sends[p].phase.Swapping?
    ensures Run(sys, es).sends[p].phase == sys.sends[p].phase
    decreases |es|
  {
    if es != [] {
      var next := Step(sys, es[0]);
      if !next.sends[p].phase.Swapping? {
        Over(next, es[1..], p);
      } else {
        SwappingStays(next, es[1..], p);
      }
    }
  }

  /** A send never goes back. */
  lemma {:induction false} Over(sys: System, es: seq<Event>, p: nat)
    requires Runs(sys, es) && p < |sys.sends|
    requires !sys.sends[p].phase.Calling? && !sys.sends[p].phase.Asked? && !sys.sends[p].phase.Swapping?
    ensures p < |Run(sys, es).sends| && !Run(sys, es).sends[p].phase.Swapping?
    decreases |es|
  {
    if es != [] {
      Over(Step(sys, es[0]), es[1..], p);
    }
  }

  /** What a send was told about the owner is what the token's storage said after its first turn. */
  lemma ClaimReports(sys: System, i: nat, legacy: Option<Key>, now: int)
    requires Enabled(sys, Claim(i, legacy, now))
    ensures var next := Step(sys, Claim(i, legacy, now));
      next.sends[i].phase.Asked? ==>
        && next.store.owner == Some(next.sends[i].phase.owner) && next.sends[i].phase.owner != sys.sends[i].key
        && next.store.claimedAt == Some(next.sends[i].phase.claimedAt)
  {
  }

  /** A claim is stamped with the instant it was taken or first seen, and keeps that stamp while it lasts. */
  lemma StampsLast(sys: System, e: Event)
    requires Enabled(sys, e) && sys.store.seeded && sys.store.owner.Some?
    requires Step(sys, e).store.owner == sys.store.owner && !TakesClaim(sys, e)
    ensures sys.store.claimedAt.Some? ==> Step(sys, e).store.claimedAt == sys.store.claimedAt
    ensures Step(sys, e).store.claimedAt.Some? && sys.store.claimedAt.None? ==>
      (e.Claim? || e.Swap?) && Step(sys, e).store.claimedAt == Some(e.now)
  {
  }

  /**
   The comparison is with the key and not with its claim: a key that claims again between the answer and
   the takeover is displaced all the same, with its send in flight.
   */
  lemma ReclaimDoesNotBeatTakeover() returns (es: seq<Event>, j: nat)
    ensures Runs(Initial(FRESH), es) && j + 1 < |es| && es[j].Claim? && es[j + 1].Swap?
    ensures var end := Run(Initial(FRESH), es);
      && |end.sends| == 3 && end.sends[1].key == "displaced" && end.sends[1].phase.Sending?
      && end.sends[2].key == "successor" && end.sends[2].phase.Sending? && end.store.owner == Some("successor")
  {
    var k, n := "displaced", "successor";
    var s5 := FirstClaim(k, n);
    var s6 := Step(s5, Claim(2, None, 70_000));
    var s7 := Step(s6, Judge(2, 70_000));
    var s8 := Step(s7, Claim(1, None, 70_000));
    var s9 := Step(s8, Swap(2, 70_000));
    assert s7.sends == [Send(k, Sending(0)), Send(k, Calling), Send(n, Swapping(k))];
    assert s8.sends == [Send(k, Sending(0)), Send(k, Sending(0)), Send(n, Swapping(k))];
    assert s9.sends == [Send(k, Sending(0)), Send(k, Sending(0)), Send(n, Sending(1))];
    es := [];
    Prepend(s8, Swap(2, 70_000), es);           es := [Swap(2, 70_000)] + es;
    Prepend(s7, Claim(1, None, 70_000), es);    es := [Claim(1, None, 70_000)] + es;
    Prepend(s6, Judge(2, 70_000), es);          es := [Judge(2, 70_000)] + es;
    Prepend(s5, Claim(2, None, 70_000), es);    es := [Claim(2, None, 70_000)] + es;
    var tail := es;
    assert tail[2] == Claim(1, None, 70_000) && tail[3] == Swap(2, 70_000);
    es := FirstClaimRuns(k, n, tail);
    j := 7;
    assert es[7] == es[5..][2] && es[8] == es[5..][3];
  }
}
