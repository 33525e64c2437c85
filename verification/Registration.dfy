/**
 Self-registration as a concurrent protocol.

 One address registers any number of times, overlapping arbitrarily. Each registration claims
 the address (one coordinator turn), writes its key record and its id index (two KV writes),
 asks the coordinator whether it is still current (one turn), and then deletes either its own
 key or its predecessor's, one KV operation at a time. Any two steps of different registrations
 interleave. KV is sequentially consistent here, and a key is active while its record exists.

 `claims` is the order of the claim turns, `confirmed` the registrations told they are current,
 `base` the key the address held before; all three are history and influence no decision.
 */
module Registration {
  import opened Optional
  import opened Coordinator

  datatype Pc =
    | Reading
    | Claiming(seed: Option<Key>)
    | Minting(prior: Option<Key>)
    | Indexing(prior: Option<Key>)
    | Confirming(prior: Option<Key>)
    | Publishing(prior: Option<Key>)
    // revokeKeyById: of the predecessor, or of the registration's own key when it lost
    | FindIndex(target: Key, lost: bool)
    | DropRecord(target: Key, lost: bool)
    | DropIndex(target: Key, lost: bool)
    | ReadAddress(target: Key, lost: bool)
    | DropAddress(target: Key, lost: bool)
    | Done(lost: bool)

  datatype System = System(
    coord: Storage,
    records: set<Key>,
    index: set<Key>,
    address: Option<Key>,
    regs: map<Key, Pc>,
    claims: seq<Key>,
    confirmed: set<Key>,
    base: Option<Key>,
    pre: set<Key>)

  datatype Event = Start(key: Key) | Advance(key: Key, now: int)

  /** Keys in `pre` exist; the address holds `base`, in the coordinator or only in the old KV index. */
  predicate Initial(sys: System) {
    && sys.records == sys.pre && sys.index == sys.pre
    && sys.regs == map[] && sys.claims == [] && sys.confirmed == {}
    && (if sys.coord.seeded then sys.coord.owner == sys.base else sys.coord.owner.None? && sys.address == sys.base)
  }

  /** Key ids are random and never repeat. */
  predicate Unused(sys: System, key: Key) {
    key !in sys.regs && key !in sys.pre && sys.base != Some(key)
  }

  predicate Enabled(sys: System, e: Event) {
    match e
    case Start(key) => Unused(sys, key)
    case Advance(key, _) => key in sys.regs && !sys.regs[key].Done?
  }

  function At(sys: System, key: Key, pc: Pc): System {
    sys.(regs := sys.regs[key := pc])
  }

  function Step(sys: System, e: Event): System
    requires Enabled(sys, e)
  {
    match e
    case Start(key) => At(sys, key, Reading)
    case Advance(key, now) =>
      match sys.regs[key]
      case Reading => At(sys, key, Claiming(sys.address))
      case Claiming(seed) =>
        var (coord, prior) := RegisterTurn(sys.coord, key, seed, now);
        At(sys, key, Minting(prior)).(coord := coord, claims := sys.claims + [key])
      case Minting(prior) => At(sys, key, Indexing(prior)).(records := sys.records + {key})
      case Indexing(prior) => At(sys, key, Confirming(prior)).(index := sys.index + {key})
      case Confirming(prior) =>
        if sys.coord.owner == Some(key) then At(sys, key, Publishing(prior)).(confirmed := sys.confirmed + {key})
        else At(sys, key, FindIndex(key, true))
      case Publishing(prior) =>
        At(sys, key, if prior.None? then Done(false) else FindIndex(prior.value, false)).(address := Some(key))
      case FindIndex(t, lost) => At(sys, key, if t in sys.index then DropRecord(t, lost) else Done(lost))
      case DropRecord(t, lost) => At(sys, key, DropIndex(t, lost)).(records := sys.records - {t})
      case DropIndex(t, lost) => At(sys, key, ReadAddress(t, lost)).(index := sys.index - {t})
      case ReadAddress(t, lost) => At(sys, key, if sys.address == Some(t) then DropAddress(t, lost) else Done(lost))
      case DropAddress(t, lost) => At(sys, key, Done(lost)).(address := None)
  }

  predicate Runs(sys: System, es: seq<Event>)
    decreases |es|
  {
    es == [] || (Enabled(sys, es[0]) && Runs(Step(sys, es[0]), es[1..]))
  }

  function Run(sys: System, es: seq<Event>): System
    requires Runs(sys, es)
    decreases |es|
  {
    if es == [] then sys else Run(Step(sys, es[0]), es[1..])
  }

  // ---- invariant ------------------------------------------------------------------------------------

  predicate BeforeClaim(pc: Pc) { pc.Reading? || pc.Claiming? }

  predicate Minted(pc: Pc) { !BeforeClaim(pc) && !pc.Minting? && !pc.Indexing? }

  predicate Revoking(pc: Pc) {
    pc.FindIndex? || pc.DropRecord? || pc.DropIndex? || pc.ReadAddress? || pc.DropAddress?
  }

  /** The registration has deleted its target's record, if there was one to delete. */
  predicate Dropped(pc: Pc) {
    pc.DropIndex? || pc.ReadAddress? || pc.DropAddress? || pc.Done?
  }

  predicate Won(pc: Pc) {
    pc.Publishing? || (Revoking(pc) && !pc.lost) || (pc.Done? && !pc.lost)
  }

  predicate Lost(pc: Pc) {
    (Revoking(pc) && pc.lost) || (pc.Done? && pc.lost)
  }

  function Prior(sys: System, p: nat): Option<Key>
    requires p < |sys.claims|
  {
    if p == 0 then sys.base else Some(sys.claims[p - 1])
  }

  predicate Chain(sys: System) {
    && (forall p, q :: 0 <= p < q < |sys.claims| ==> sys.claims[p] != sys.claims[q])
    && (forall k :: k in sys.claims ==> k in sys.regs)
    && (forall k :: k in sys.regs ==> (k in sys.claims <==> !BeforeClaim(sys.regs[k])))
    && (forall k :: k in sys.regs ==> k !in sys.pre && sys.base != Some(k))
    && (forall k :: k in sys.confirmed ==> k in sys.claims)
  }

  /** The coordinator names the last claimant, and before the first claim it will name `base`. */
  predicate CoordInv(sys: System) {
    if sys.claims != [] then sys.coord.seeded && sys.coord.owner == Some(sys.claims[|sys.claims| - 1])
    else if sys.coord.seeded then sys.coord.owner == sys.base
    else sys.coord.owner.None? && sys.address == sys.base
         && forall k :: k in sys.regs && sys.regs[k].Claiming? ==> sys.regs[k].seed == sys.base
  }

  /** What a claimant knows, and what it was told. */
  predicate PcOk(k: Key, pc: Pc, prior: Option<Key>, confirmed: bool, last: bool) {
    && (pc.Minting? || pc.Indexing? || pc.Confirming? || pc.Publishing? ==> pc.prior == prior)
    && (Revoking(pc) ==> if pc.lost then pc.target == k else Some(pc.target) == prior)
    && (confirmed <==> Won(pc))
    && (Lost(pc) ==> !last)
  }

  /** Where a claimant's key exists, given how far the claimant and its successor have come. */
  predicate KeyOk(pc: Pc, succ: Option<Pc>, record: bool, index: bool) {
    && (!Minted(pc) ==> (record <==> pc.Indexing?) && !index)
    && (Minted(pc) && record ==> index)
    && (Lost(pc) && Dropped(pc) ==> !record)
    && (pc.Confirming? && succ.None? ==> record)
    && (Won(pc) ==> (record <==> !(succ.Some? && Won(succ.value) && Dropped(succ.value))))
    // a successor past its index lookup found a fully minted key
    && (succ.Some? && Won(succ.value) && succ.value.DropRecord? ==> Minted(pc))
    && (succ.Some? && Won(succ.value) && succ.value.DropIndex? ==> Minted(pc) && !record)
  }

  function Succ(sys: System, p: nat): Option<Pc>
    requires p < |sys.claims| && forall k :: k in sys.claims ==> k in sys.regs
  {
    if p == |sys.claims| - 1 then None else Some(sys.regs[sys.claims[p + 1]])
  }

  predicate LocalInv(sys: System, p: nat)
    requires p < |sys.claims| && forall k :: k in sys.claims ==> k in sys.regs
  {
    var k := sys.claims[p];
    && PcOk(k, sys.regs[k], Prior(sys, p), k in sys.confirmed, p == |sys.claims| - 1)
    && KeyOk(sys.regs[k], Succ(sys, p), k in sys.records, k in sys.index)
  }

  predicate BaseOk(first: Option<Pc>, record: bool, index: bool) {
    && (record <==> !(first.Some? && Won(first.value) && Dropped(first.value)))
    && (record ==> index)
  }

  /** Where the keys that existed before are. */
  predicate PreInv(sys: System)
    requires forall k :: k in sys.claims ==> k in sys.regs
  {
    && (forall k :: k in sys.pre && sys.base != Some(k) ==> k in sys.records)
    && (forall k :: k in sys.records ==> k in sys.pre || k in sys.claims)
    && (forall k :: k in sys.index ==> k in sys.pre || k in sys.claims)
    && (sys.base.Some? && sys.base.value in sys.pre ==>
          BaseOk(if sys.claims == [] then None else Some(sys.regs[sys.claims[0]]),
                 sys.base.value in sys.records, sys.base.value in sys.index))
  }

  predicate Inv(sys: System) {
    && Chain(sys)
    && CoordInv(sys)
    && (forall p :: 0 <= p < |sys.claims| ==> LocalInv(sys, p))
    && PreInv(sys)
  }

  lemma InitialInv(sys: System)
    requires Initial(sys)
    ensures Inv(sys)
  {
  }

  // ---- every step keeps it --------------------------------------------------------------------------

  lemma StartKeeps(sys: System, e: Event)
    requires Inv(sys) && Enabled(sys, e) && (e.Start? || sys.regs[e.key].Reading?)
    ensures Inv(Step(sys, e))
  {
    var next := Step(sys, e);
    assert e.key !in sys.claims;
    forall q | 0 <= q < |next.claims| ensures LocalInv(next, q) {
      assert LocalInv(sys, q);
    }
  }

  lemma ClaimKeeps(sys: System, key: Key, now: int)
    requires Inv(sys) && key in sys.regs && sys.regs[key].Claiming?
    ensures Inv(Step(sys, Advance(key, now)))
  {
    var next := Step(sys, Advance(key, now));
    var n := |sys.claims|;
    assert next.claims == sys.claims + [key] && key !in sys.claims;
    assert next.regs[key].prior == Prior(next, n);
    forall q | 0 <= q < |next.claims| ensures LocalInv(next, q) {
      if q < n {
        assert LocalInv(sys, q) && next.claims[q] == sys.claims[q];
        assert Succ(next, q) == if q < n - 1 then Succ(sys, q) else Some(next.regs[key]);
      }
    }
  }

  /** The key a revocation step may delete, `key` itself otherwise. */
  function Touched(sys: System, key: Key): Key
    requires key in sys.regs
  {
    if Revoking(sys.regs[key]) then sys.regs[key].target else key
  }

  /** A step after the claim moves one registration and touches at most one other key. */
  lemma AdvanceFrame(sys: System, key: Key, now: int)
    requires Chain(sys) && Enabled(sys, Advance(key, now)) && key in sys.claims
    ensures var next := Step(sys, Advance(key, now));
      && next.claims == sys.claims && next.coord == sys.coord && next.base == sys.base && next.pre == sys.pre
      && next.regs == sys.regs[key := next.regs[key]] && !BeforeClaim(next.regs[key])
      && next.confirmed - {key} == sys.confirmed - {key}
      && (forall k :: k != key && k != Touched(sys, key) ==>
            (k in next.records <==> k in sys.records) && (k in next.index <==> k in sys.index))
  {
  }

  lemma AdvanceKeepsChain(sys: System, p: nat, now: int)
    requires Chain(sys) && CoordInv(sys) && p < |sys.claims| && Enabled(sys, Advance(sys.claims[p], now))
    ensures var next := Step(sys, Advance(sys.claims[p], now));
      next.claims == sys.claims && Chain(next) && CoordInv(next)
  {
    AdvanceFrame(sys, sys.claims[p], now);
  }

  lemma AdvanceKeepsLocal(sys: System, p: nat, q: nat, now: int)
    requires Chain(sys) && CoordInv(sys) && p < |sys.claims| && q < |sys.claims|
      && Enabled(sys, Advance(sys.claims[p], now))
    requires LocalInv(sys, p) && LocalInv(sys, q)
    ensures var next := Step(sys, Advance(sys.claims[p], now));
      next.claims == sys.claims && (forall k :: k in next.claims ==> k in next.regs) && LocalInv(next, q)
  {
    if q == p {
      if Revoking(sys.regs[sys.claims[p]]) {
        RevokingKeeps(sys, p, now);
      } else {
        MintingKeeps(sys, p, now);
      }
    } else if q == p - 1 {
      PredecessorKeeps(sys, p, now);
    } else {
      OthersKeep(sys, p, q, now);
    }
  }

  lemma AdvanceKeeps(sys: System, p: nat, now: int)
    requires Inv(sys) && p < |sys.claims| && Enabled(sys, Advance(sys.claims[p], now))
    ensures Inv(Step(sys, Advance(sys.claims[p], now)))
  {
    AdvanceKeepsChain(sys, p, now);
    forall q | 0 <= q < |sys.claims| ensures LocalInv(Step(sys, Advance(sys.claims[p], now)), q) {
      AdvanceKeepsLocal(sys, p, q, now);
    }
    AdvanceKeepsPre(sys, p, now);
  }

  /** The claimant that moves, on its way to a key of its own ... */
  lemma MintingKeeps(sys: System, p: nat, now: int)
    requires Chain(sys) && CoordInv(sys) && p < |sys.claims| && Enabled(sys, Advance(sys.claims[p], now))
    requires LocalInv(sys, p) && !Revoking(sys.regs[sys.claims[p]])
    ensures var next := Step(sys, Advance(sys.claims[p], now));
      next.claims == sys.claims && (forall k :: k in next.claims ==> k in next.regs) && LocalInv(next, p)
  {
    var key := sys.claims[p];
    var next := Step(sys, Advance(key, now));
    AdvanceFrame(sys, key, now);
    assert Succ(next, p) == Succ(sys, p) && Prior(next, p) == Prior(sys, p);
  }

  /** ... and on its way to deleting one. */
  lemma RevokingKeeps(sys: System, p: nat, now: int)
    requires Chain(sys) && p < |sys.claims| && Enabled(sys, Advance(sys.claims[p], now))
    requires LocalInv(sys, p) && Revoking(sys.regs[sys.claims[p]])
    ensures var next := Step(sys, Advance(sys.claims[p], now));
      next.claims == sys.claims && (forall k :: k in next.claims ==> k in next.regs) && LocalInv(next, p)
  {
    var key := sys.claims[p];
    var next := Step(sys, Advance(key, now));
    AdvanceFrame(sys, key, now);
    assert Succ(next, p) == Succ(sys, p) && Prior(next, p) == Prior(sys, p);
    assert p > 0 ==> sys.claims[p - 1] != key;
  }

  /** Its predecessor, whose key it may delete. */
  lemma PredecessorKeeps(sys: System, p: nat, now: int)
    requires Chain(sys) && 0 < p < |sys.claims| && Enabled(sys, Advance(sys.claims[p], now))
    requires LocalInv(sys, p) && LocalInv(sys, p - 1)
    ensures var next := Step(sys, Advance(sys.claims[p], now));
      next.claims == sys.claims && (forall k :: k in next.claims ==> k in next.regs) && LocalInv(next, p - 1)
  {
    var key, prior := sys.claims[p], sys.claims[p - 1];
    var next := Step(sys, Advance(key, now));
    AdvanceFrame(sys, key, now);
    assert prior != key && next.regs[prior] == sys.regs[prior] && Prior(next, p - 1) == Prior(sys, p - 1);
    assert Succ(next, p - 1) == Some(next.regs[key]) && Succ(sys, p - 1) == Some(sys.regs[key]);
  }

  lemma OthersKeep(sys: System, p: nat, q: nat, now: int)
    requires Chain(sys) && p < |sys.claims| && q < |sys.claims| && q != p && q != p - 1
    requires LocalInv(sys, p) && LocalInv(sys, q) && Enabled(sys, Advance(sys.claims[p], now))
    ensures var next := Step(sys, Advance(sys.claims[p], now));
      next.claims == sys.claims && (forall k :: k in next.claims ==> k in next.regs) && LocalInv(next, q)
  {
    var key := sys.claims[p];
    var next := Step(sys, Advance(key, now));
    AdvanceFrame(sys, key, now);
    assert p > 0 ==> sys.claims[q] != sys.claims[p - 1];
    assert sys.base != Some(sys.claims[q]);
    assert sys.claims[q] != key && sys.claims[q] != Touched(sys, key);
    assert Succ(next, q) == Succ(sys, q) && Prior(next, q) == Prior(sys, q);
  }

  lemma AdvanceKeepsPre(sys: System, p: nat, now: int)
    requires Chain(sys) && PreInv(sys) && p < |sys.claims| && Enabled(sys, Advance(sys.claims[p], now))
    requires LocalInv(sys, p)
    ensures var next := Step(sys, Advance(sys.claims[p], now));
      (forall k :: k in next.claims ==> k in next.regs) && PreInv(next)
  {
    AdvanceFrame(sys, sys.claims[p], now);
    assert Touched(sys, sys.claims[p]) in sys.pre ==> p == 0 && sys.base == Some(Touched(sys, sys.claims[p]));
  }

  lemma StepKeeps(sys: System, e: Event)
    requires Inv(sys) && Enabled(sys, e)
    ensures Inv(Step(sys, e))
  {
    if e.Start? || sys.regs[e.key].Reading? {
      StartKeeps(sys, e);
    } else if sys.regs[e.key].Claiming? {
      ClaimKeeps(sys, e.key, e.now);
    } else {
      var p :| 0 <= p < |sys.claims| && sys.claims[p] == e.key;
      AdvanceKeeps(sys, p, e.now);
    }
  }

  lemma {:induction false} RunKeeps(sys: System, es: seq<Event>)
    requires Inv(sys) && Runs(sys, es)
    ensures Inv(Run(sys, es))
    decreases |es|
  {
    if es != [] {
      StepKeeps(sys, es[0]);
      RunKeeps(Step(sys, es[0]), es[1..]);
    }
  }

  lemma {:induction false} RunKeepsBase(sys: System, es: seq<Event>)
    requires Runs(sys, es)
    ensures Run(sys, es).base == sys.base && Run(sys, es).pre == sys.pre
    decreases |es|
  {
    if es != [] {
      RunKeepsBase(Step(sys, es[0]), es[1..]);
    }
  }

  // ---- main results ---------------------------------------------------------------------------------

  predicate Quiescent(sys: System) {
    forall k :: k in sys.regs ==> sys.regs[k].Done?
  }

  /** The registration that claimed right after the `p`-th was displaced before it confirmed. */
  predicate SuccessorDisplaced(sys: System, p: nat) {
    p + 1 < |sys.claims| && sys.claims[p + 1] !in sys.confirmed
  }

  predicate BaseStranded(sys: System) {
    sys.base.Some? && sys.base.value in sys.pre && (sys.claims == [] || sys.claims[0] !in sys.confirmed)
  }

  /** Exactly which keys are active. */
  predicate ActiveExactly(sys: System) {
    && (forall p :: 0 <= p < |sys.claims| ==>
          (sys.claims[p] in sys.records <==>
            p == |sys.claims| - 1 || (sys.claims[p] in sys.confirmed && SuccessorDisplaced(sys, p))))
    && (sys.base.Some? && sys.base.value in sys.pre ==> (sys.base.value in sys.records <==> BaseStranded(sys)))
    && (forall k :: k in sys.pre && sys.base != Some(k) ==> k in sys.records)
    && (forall k :: k in sys.records ==> k in sys.pre || k in sys.claims)
  }

  lemma RestIsExact(sys: System)
    requires Inv(sys) && Quiescent(sys)
    ensures ActiveExactly(sys)
  {
    forall p | 0 <= p < |sys.claims|
      ensures sys.claims[p] in sys.records <==>
        p == |sys.claims| - 1 || (sys.claims[p] in sys.confirmed && SuccessorDisplaced(sys, p))
    {
      assert LocalInv(sys, p);
      assert p < |sys.claims| - 1 ==> LocalInv(sys, p + 1);
    }
    if sys.claims != [] {
      assert LocalInv(sys, 0);
    }
  }

  /**
   Which keys survive, for any number of overlapping registrations and any interleaving: the last
   claimant's, every confirmed key whose immediate successor was displaced before confirming, and
   the previous key of the address if the first claimant was displaced before confirming.
   */
  lemma ActiveKeysAtRest(start: System, es: seq<Event>)
    requires Initial(start) && Runs(start, es) && Quiescent(Run(start, es))
    ensures ActiveExactly(Run(start, es))
    ensures Run(start, es).base == start.base && Run(start, es).pre == start.pre
  {
    InitialInv(start);
    RunKeeps(start, es);
    RunKeepsBase(start, es);
    RestIsExact(Run(start, es));
  }

  /** The keys of this address that are active. */
  function Survivors(sys: System): set<Key> {
    set k | k in sys.records && (k in sys.claims || sys.base == Some(k))
  }

  predicate NobodyStranded(sys: System) {
    !BaseStranded(sys) && forall p :: 0 <= p < |sys.claims| && sys.claims[p] in sys.confirmed ==>
      !SuccessorDisplaced(sys, p)
  }

  /** A key left behind is one more survivor besides the last claimant's. */
  lemma StrandedSurvive(sys: System)
    requires Chain(sys) && ActiveExactly(sys) && sys.claims != []
    ensures sys.claims[|sys.claims| - 1] in Survivors(sys)
    ensures !NobodyStranded(sys) ==> exists k :: k in Survivors(sys) && k != sys.claims[|sys.claims| - 1]
  {
    var n := |sys.claims|;
    assert sys.claims[n - 1] in sys.claims && sys.claims[n - 1] in sys.regs;
    if BaseStranded(sys) {
      assert sys.base.value in Survivors(sys) && sys.base.value != sys.claims[n - 1];
    } else if !NobodyStranded(sys) {
      var p :| 0 <= p < n && sys.claims[p] in sys.confirmed && SuccessorDisplaced(sys, p);
      assert sys.claims[p] in Survivors(sys) && sys.claims[p] != sys.claims[n - 1];
    }
  }

  lemma OneSurvivor(sys: System)
    requires Chain(sys) && ActiveExactly(sys) && sys.claims != []
    ensures sys.claims[|sys.claims| - 1] in Survivors(sys)
    ensures |Survivors(sys)| == 1 <==> NobodyStranded(sys)
  {
    StrandedSurvive(sys);
    var last := sys.claims[|sys.claims| - 1];
    if |Survivors(sys)| == 1 {
      OnlyElement(Survivors(sys), last);
    }
    if NobodyStranded(sys) {
      forall k | k in Survivors(sys) ensures k == last {
        if k in sys.claims {
          var p :| 0 <= p < |sys.claims| && sys.claims[p] == k;
        }
      }
      assert Survivors(sys) == {last};
    }
  }

  /**
   When exactly one key survives: exactly when no confirmed registration, and not the previous
   key either, was followed by a claimant that lost the address before it could confirm.
   */
  lemma OneKeyIffNobodyStranded(start: System, es: seq<Event>)
    requires Initial(start) && Runs(start, es) && Quiescent(Run(start, es)) && Run(start, es).claims != []
    ensures var sys := Run(start, es);
      && sys.claims[|sys.claims| - 1] in Survivors(sys)
      && (|Survivors(sys)| == 1 <==> NobodyStranded(sys))
  {
    ActiveKeysAtRest(start, es);
    InitialInv(start);
    RunKeeps(start, es);
    OneSurvivor(Run(start, es));
  }

  lemma OnlyElement(s: set<Key>, x: Key)
    requires |s| == 1 && x in s
    ensures s == {x}
  {
    assert |s - {x}| == 0;
  }

  // ---- two keys from one address --------------------------------------------------------------------

  lemma Prepend(sys: System, e: Event, es: seq<Event>)
    requires Enabled(sys, e) && Runs(Step(sys, e), es)
    ensures Runs(sys, [e] + es) && Run(sys, [e] + es) == Run(Step(sys, e), es)
  {
    assert ([e] + es)[1..] == es;
  }

  /**
   The address holds a working key. Two more registrations overlap: the first claims and is
   displaced by the second before it confirms. It deletes its own key, the second revokes only
   that one, and the original key stays active beside the second's.
   */
  lemma TwoKeysSurvive() returns (start: System, es: seq<Event>)
    ensures Initial(start) && Runs(start, es) && Quiescent(Run(start, es))
    ensures Survivors(Run(start, es)) == {"original", "second"}
  {
    start := Overlap("original", None, [], map[]);
    es := SecondWins("original", "first", "second");
    es := FirstLoses("original", "first", "second", es);
    es := BothClaim("original", "first", "second", es);
  }

  function Overlap(o: Key, owner: Option<Key>, claims: seq<Key>, regs: map<Key, Pc>): System {
    System(FRESH.(seeded := true, owner := if owner.None? then Some(o)
      else owner), {o}, {o}, None, regs, claims, {}, Some(o), {o})
  }

  lemma BothClaim(o: Key, a: Key, b: Key, rest: seq<Event>) returns (es: seq<Event>)
    requires o != a && o != b && a != b
    requires Runs(Overlap(o, Some(b), [a, b], map[a := Minting(Some(o)), b := Minting(Some(a))]), rest)
    ensures Runs(Overlap(o, None, [], map[]), es)
    ensures Run(Overlap(o, None, [], map[]), es)
         == Run(Overlap(o, Some(b), [a, b], map[a := Minting(Some(o)), b := Minting(Some(a))]), rest)
  {
    var s0 := Overlap(o, None, [], map[]);
    var s1 := Step(s0, Start(a));
    var s2 := Step(s1, Start(b));
    var s3 := Step(s2, Advance(a, 0));
    var s4 := Step(s3, Advance(a, 0));
    var s5 := Step(s4, Advance(b, 0));
    var s6 := Step(s5, Advance(b, 0));
    assert s6 == Overlap(o, Some(b), [a, b], map[a := Minting(Some(o)), b := Minting(Some(a))]);
    es := Back(s5, b, rest);
    es := Back(s4, b, es);
    es := Back(s3, a, es);
    es := Back(s2, a, es);
    Prepend(s1, Start(b), es);
    es := [Start(b)] + es;
    Prepend(s0, Start(a), es);
    es := [Start(a)] + es;
  }

  lemma FirstLoses(o: Key, a: Key, b: Key, rest: seq<Event>) returns (es: seq<Event>)
    requires o != a && o != b && a != b
    requires Runs(Overlap(o, Some(b), [a, b], map[a := Done(true), b := Minting(Some(a))]), rest)
    ensures var s := Overlap(o, Some(b), [a, b], map[a := Minting(Some(o)), b := Minting(Some(a))]);
      Runs(s, es) && Run(s, es) == Run(Overlap(o, Some(b), [a, b], map[a := Done(true), b := Minting(Some(a))]), rest)
  {
    var s0 := Overlap(o, Some(b), [a, b], map[a := Minting(Some(o)), b := Minting(Some(a))]);
    var s1 := Step(s0, Advance(a, 0));
    var s2 := Step(s1, Advance(a, 0));
    var s3 := Step(s2, Advance(a, 0));
    var s4 := Step(s3, Advance(a, 0));
    var s5 := Step(s4, Advance(a, 0));
    var s6 := Step(s5, Advance(a, 0));
    var s7 := Step(s6, Advance(a, 0));
    assert s7 == Overlap(o, Some(b), [a, b], map[a := Done(true), b := Minting(Some(a))]);
    es := Back(s6, a, rest);
    es := Back(s5, a, es);
    es := Back(s4, a, es);
    es := Back(s3, a, es);
    es := Back(s2, a, es);
    es := Back(s1, a, es);
    es := Back(s0, a, es);
  }

  lemma SecondWins(o: Key, a: Key, b: Key) returns (es: seq<Event>)
    requires o != a && o != b && a != b
    ensures var s := Overlap(o, Some(b), [a, b], map[a := Done(true), b := Minting(Some(a))]);
      Runs(s, es) && Quiescent(Run(s, es)) && Survivors(Run(s, es)) == {o, b}
  {
    var s0 := Overlap(o, Some(b), [a, b], map[a := Done(true), b := Minting(Some(a))]);
    var s1 := Step(s0, Advance(b, 0));
    var s2 := Step(s1, Advance(b, 0));
    var s3 := Step(s2, Advance(b, 0));
    var s4 := Step(s3, Advance(b, 0));
    var s5 := Step(s4, Advance(b, 0));
    assert s5.regs == map[a := Done(true), b := Done(false)] && s5.records == {o, b};
    es := Back(s4, b, []);
    es := Back(s3, b, es);
    es := Back(s2, b, es);
    es := Back(s1, b, es);
    es := Back(s0, b, es);
  }

  lemma Back(sys: System, key: Key, es: seq<Event>) returns (more: seq<Event>)
    requires key in sys.regs && !sys.regs[key].Done? && Runs(Step(sys, Advance(key, 0)), es)
    ensures Runs(sys, more) && Run(sys, more) == Run(Step(sys, Advance(key, 0)), es)
  {
    more := [Advance(key, 0)] + es;
    Prepend(sys, Advance(key, 0), es);
  }
}
