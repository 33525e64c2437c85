/** The first rows of a finite set in some order, as `ORDER BY … LIMIT` and `ROW_NUMBER` pick them. */
module Ranking {
  lemma {:induction false} SubsetSize<T>(a: set<T>, b: set<T>)
    requires a <= b
    ensures |a| <= |b|
    ensures |a| == |b| ==> a == b
  {
    if a != {} {
      var x :| x in a;
      SubsetSize(a - {x}, b - {x});
    }
  }

  ghost predicate StrictOrder<T(!new)>(before: (T, T) -> bool, s: set<T>) {
    && (forall x :: x in s ==> !before(x, x))
    && (forall x, y :: x in s && y in s && x != y ==> before(x, y) || before(y, x))
    && (forall x, y, z :: x in s && y in s && z in s && before(x, y) && before(y, z) ==> before(x, z))
  }

  function Ahead<T(==)>(before: (T, T) -> bool, s: set<T>, x: T): set<T> {
    set y | y in s && before(y, x)
  }

  /** The elements with fewer than `k` ahead of them. */
  function First<T(==)>(before: (T, T) -> bool, s: set<T>, k: nat): set<T> {
    set x | x in s && |Ahead(before, s, x)| < k
  }

  ghost predicate LastOf<T(!new)>(before: (T, T) -> bool, s: set<T>, m: T) {
    m in s && forall x :: x in s && x != m ==> before(x, m)
  }

  lemma {:induction false} HasLast<T(!new)>(before: (T, T) -> bool, s: set<T>) returns (m: T)
    requires s != {} && StrictOrder(before, s)
    ensures LastOf(before, s, m)
  {
    m :| m in s;
    if s != {m} {
      var rest := s - {m};
      var m' := HasLast(before, rest);
      if before(m, m') {
        m := m';
      }
    }
  }

  /** Removing the last element changes nobody else's position. */
  lemma WithoutLast<T(!new)>(before: (T, T) -> bool, s: set<T>, m: T, k: nat)
    requires StrictOrder(before, s) && LastOf(before, s, m)
    ensures First(before, s, k) == First(before, s - {m}, k) + if |s| <= k then {m} else {}
  {
    assert Ahead(before, s, m) == s - {m};
    forall x | x in s - {m} ensures Ahead(before, s, x) == Ahead(before, s - {m}, x) {
      assert !before(m, x);
    }
  }

  /** There are `min(k, |s|)` of them. */
  lemma {:induction false} FirstSize<T(!new)>(before: (T, T) -> bool, s: set<T>, k: nat)
    requires StrictOrder(before, s)
    ensures |First(before, s, k)| == if k < |s| then k else |s|
    decreases |s|
  {
    if s == {} {
      assert First(before, s, k) == {};
    } else {
      var m := HasLast(before, s);
      WithoutLast(before, s, m, k);
      FirstSize(before, s - {m}, k);
    }
  }

  /** And nobody left out is ahead of anybody taken. */
  lemma FirstIsFirst<T(!new)>(before: (T, T) -> bool, s: set<T>, k: nat, taken: T, left: T)
    requires StrictOrder(before, s)
    requires taken in First(before, s, k) && left in s && left !in First(before, s, k)
    ensures before(taken, left)
  {
    if before(left, taken) {
      SubsetSize(Ahead(before, s, left), Ahead(before, s, taken));
    }
  }
}
