/**
 The id index beside the key records. Records and index entries are written and deleted one at a time,
 by the registration that makes a key and by those that revoke it.
 */
module RegistrationIndex {
  import opened Optional
  import opened Coordinator
  import opened Registration

  /** Some registration has deleted the key's record and is about to delete its index entry. */
  predicate Unindexing(sys: System, k: Key) {
    exists r :: r in sys.regs && sys.regs[r].DropIndex? && sys.regs[r].target == k
  }

  /** The key was there before, or its registration has come past the index. */
  predicate PastIndex(sys: System, k: Key) {
    k in sys.regs ==> Minted(sys.regs[k])
  }

  /** A key that exists, or once did. */
  predicate Seen(sys: System, k: Key) { k in sys.regs || k in sys.pre }

  predicate Targets(sys: System, r: Key) {
    r in sys.regs && (sys.regs[r].DropRecord? || sys.regs[r].DropIndex?)
  }

  /** Records and index entries differ only for a key being made or being revoked right now. */
  ghost predicate Matched(sys: System) {
    && (forall k :: k in sys.index ==> Seen(sys, k) && PastIndex(sys, k) && (k in sys.records || Unindexing(sys, k)))
    && (forall k :: k in sys.records ==> Seen(sys, k) && (k in sys.index || (k in sys.regs && sys.regs[k].Indexing?)))
    && (forall r :: Targets(sys, r) ==> Seen(sys, sys.regs[r].target) && PastIndex(sys, sys.regs[r].target))
    && (forall r :: Targets(sys, r) && sys.regs[r].DropIndex? ==> sys.regs[r].target !in sys.records)
    && (forall k :: k in sys.regs && sys.regs[k].Indexing? ==> k in sys.records)
    && (forall k :: k in sys.regs && (BeforeClaim(sys.regs[k]) || sys.regs[k].Minting?) ==> k !in sys.records)
  }

  lemma StartMatched(sys: System, key: Key)
    requires Matched(sys) && Enabled(sys, Start(key))
    ensures Matched(Step(sys, Start(key)))
  {
    var next := Step(sys, Start(key));
    forall k | Unindexing(sys, k) ensures Unindexing(next, k) {
      var r :| r in sys.regs && sys.regs[r].DropIndex? && sys.regs[r].target == k;
      assert next.regs[r] == sys.regs[r];
    }
    forall r | Targets(next, r) ensures Targets(sys, r) && sys.regs[r] == next.regs[r] {
    }
  }

  /** The other registrations' pending deletions stay pending. */
  lemma StillUnindexing(sys: System, key: Key, pc: Pc, k: Key)
    requires key in sys.regs && Unindexing(sys, k) && !(sys.regs[key].DropIndex? && sys.regs[key].target == k)
    ensures Unindexing(At(sys, key, pc), k)
  {
    var r :| r in sys.regs && sys.regs[r].DropIndex? && sys.regs[r].target == k;
    assert At(sys, key, pc).regs[r] == sys.regs[r];
  }

  /** A step that writes neither table, of a registration that is not between the two deletions. */
  lemma MoveMatched(sys: System, key: Key, next: System)
    requires Matched(sys) && key in sys.regs && !sys.regs[key].Minting? && !sys.regs[key].Indexing?
    requires !Targets(sys, key)
    requires next.records == sys.records && next.index == sys.index && next.pre == sys.pre
    requires key in next.regs && next.regs == sys.regs[key := next.regs[key]] && !next.regs[key].DropIndex?
    requires next.regs[key].DropRecord? ==> next.regs[key].target in sys.index
    requires !next.regs[key].Indexing? && (BeforeClaim(sys.regs[key]) <==>
      BeforeClaim(next.regs[key]) || next.regs[key].Minting?)
    ensures Matched(next)
  {
    forall k | Unindexing(sys, k) ensures Unindexing(next, k) {
      StillUnindexing(sys, key, next.regs[key], k);
      var r :| r in sys.regs && sys.regs[r].DropIndex? && sys.regs[r].target == k;
      assert next.regs[r] == sys.regs[r];
    }
    forall r | r != key && Targets(next, r) ensures Targets(sys, r) && next.regs[r] == sys.regs[r] {
    }
  }

  lemma MintMatched(sys: System, key: Key, prior: Option<Key>)
    requires Matched(sys) && key in sys.regs && sys.regs[key] == Minting(prior)
    ensures Matched(At(sys, key, Indexing(prior)).(records := sys.records + {key}))
  {
    var next := At(sys, key, Indexing(prior)).(records := sys.records + {key});
    forall k | Unindexing(sys, k) ensures Unindexing(next, k) {
      var r :| r in sys.regs && sys.regs[r].DropIndex? && sys.regs[r].target == k;
      assert next.regs[r] == sys.regs[r];
    }
    forall r | Targets(next, r) ensures Targets(sys, r) && next.regs[r] == sys.regs[r] {
    }
  }

  lemma IndexMatched(sys: System, key: Key, prior: Option<Key>)
    requires Matched(sys) && key in sys.regs && sys.regs[key] == Indexing(prior)
    ensures Matched(At(sys, key, Confirming(prior)).(index := sys.index + {key}))
  {
    var next := At(sys, key, Confirming(prior)).(index := sys.index + {key});
    forall k | Unindexing(sys, k) ensures Unindexing(next, k) {
      var r :| r in sys.regs && sys.regs[r].DropIndex? && sys.regs[r].target == k;
      assert next.regs[r] == sys.regs[r];
    }
    forall r | Targets(next, r) ensures Targets(sys, r) && next.regs[r] == sys.regs[r] {
    }
  }

  lemma DropRecordMatched(sys: System, key: Key, t: Key, lost: bool)
    requires Matched(sys) && key in sys.regs && sys.regs[key] == DropRecord(t, lost)
    ensures Matched(At(sys, key, DropIndex(t, lost)).(records := sys.records - {t}))
  {
    var next := At(sys, key, DropIndex(t, lost)).(records := sys.records - {t});
    assert Targets(sys, key) && next.regs[key].DropIndex? && next.regs[key].target == t;
    forall k | Unindexing(sys, k) ensures Unindexing(next, k) {
      var r :| r in sys.regs && sys.regs[r].DropIndex? && sys.regs[r].target == k;
      assert next.regs[r] == sys.regs[r];
    }
    forall r | Targets(next, r) && r != key ensures Targets(sys, r) && next.regs[r] == sys.regs[r] {
    }
  }

  lemma DropIndexMatched(sys: System, key: Key, t: Key, lost: bool)
    requires Matched(sys) && key in sys.regs && sys.regs[key] == DropIndex(t, lost)
    ensures Matched(At(sys, key, ReadAddress(t, lost)).(index := sys.index - {t}))
  {
    var next := At(sys, key, ReadAddress(t, lost)).(index := sys.index - {t});
    assert Targets(sys, key);
    forall k | Unindexing(sys, k) && k != t ensures Unindexing(next, k) {
      var r :| r in sys.regs && sys.regs[r].DropIndex? && sys.regs[r].target == k;
      assert next.regs[r] == sys.regs[r];
    }
    forall r | Targets(next, r) ensures Targets(sys, r) && next.regs[r] == sys.regs[r] {
    }
  }

  lemma StepMatched(sys: System, e: Event)
    requires Matched(sys) && Enabled(sys, e)
    ensures Matched(Step(sys, e))
  {
    match e
    case Start(key) => StartMatched(sys, key);
    case Advance(key, now) =>
      var pc := sys.regs[key];
      if pc.Minting? {
        MintMatched(sys, key, pc.prior);
      } else if pc.Indexing? {
        IndexMatched(sys, key, pc.prior);
      } else if pc.DropRecord? {
        DropRecordMatched(sys, key, pc.target, pc.lost);
      } else if pc.DropIndex? {
        DropIndexMatched(sys, key, pc.target, pc.lost);
      } else {
        MoveMatched(sys, key, Step(sys, e));
      }
  }

  lemma {:induction false} RunMatched(sys: System, es: seq<Event>)
    requires Matched(sys) && Runs(sys, es)
    ensures Matched(Run(sys, es))
    decreases |es|
  {
    if es != [] {
      StepMatched(sys, es[0]);
      RunMatched(Step(sys, es[0]), es[1..]);
    }
  }

  /** However registrations overlap, once all are done every key record has its index entry, and no other is left. */
  lemma IndexMatchesAtRest(start: System, es: seq<Event>)
    requires Initial(start) && Runs(start, es) && Quiescent(Run(start, es))
    ensures Run(start, es).index == Run(start, es).records
  {
    RunMatched(start, es);
  }
}
