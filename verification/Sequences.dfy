/** Sequences without repetitions. */
module Sequences {

  ghost predicate Distinct<T>(q: seq<T>) { forall i, j :: 0 <= i < j < |q| ==> q[i] != q[j] }

  lemma InCons<T>(head: T, tail: seq<T>, x: T)
    ensures x in [head] + tail <==> x == head || x in tail
  {}

  lemma InSnoc<T>(q: seq<T>, last: T, x: T)
    ensures x in q + [last] <==> x in q || x == last
  {}

  lemma Reassociate<T>(a: seq<T>, b: seq<T>, c: seq<T>)
    ensures (a + b) + c == a + (b + c)
  {}

  /** The first occurrence of each element. */
  function Dedupe<T(==)>(q: seq<T>): seq<T> {
    if q == [] then []
    else
      var rest := Dedupe(q[..|q| - 1]);
      if q[|q| - 1] in rest then rest else rest + [q[|q| - 1]]
  }

  lemma DedupeSnoc<T>(q: seq<T>, x: T)
    ensures Dedupe(q + [x]) == if x in Dedupe(q) then Dedupe(q) else Dedupe(q) + [x]
  {
    assert (q + [x])[..|q|] == q;
  }

  lemma {:induction false} DedupeFacts<T>(q: seq<T>)
    ensures Distinct(Dedupe(q)) && |Dedupe(q)| <= |q|
    ensures forall x :: x in Dedupe(q) <==> x in q
  {
    if q != [] {
      DedupeFacts(q[..|q| - 1]);
      assert q == q[..|q| - 1] + [q[|q| - 1]];
    }
  }

  lemma {:induction false} DedupeExtends<T>(q: seq<T>, more: seq<T>)
    ensures Dedupe(q) <= Dedupe(q + more)
    ensures |Dedupe(q + more)| <= |Dedupe(q)| + |more|
  {
    if more == [] {
      assert q + more == q;
    } else {
      var front, last := more[..|more| - 1], more[|more| - 1];
      DedupeExtends(q, front);
      assert q + more == (q + front) + [last];
      DedupeSnoc(q + front, last);
    }
  }

  /** Dropping repetitions early changes nothing. */
  lemma {:induction false} DedupeTwice<T>(q: seq<T>, more: seq<T>)
    ensures Dedupe(Dedupe(q) + more) == Dedupe(q + more)
  {
    if more == [] {
      DedupeFacts(q);
      DedupeDistinct(Dedupe(q));
      assert Dedupe(q) + more == Dedupe(q) && q + more == q;
    } else {
      var front, last := more[..|more| - 1], more[|more| - 1];
      DedupeTwice(q, front);
      assert Dedupe(q) + more == (Dedupe(q) + front) + [last] && q + more == (q + front) + [last];
      DedupeSnoc(q + front, last);
      DedupeSnoc(Dedupe(q) + front, last);
    }
  }

  lemma {:induction false} DedupeDistinct<T>(q: seq<T>)
    requires Distinct(q)
    ensures Dedupe(q) == q
  {
    if q != [] {
      var front, last := q[..|q| - 1], q[|q| - 1];
      DedupeDistinct(front);
      assert q == front + [last];
    }
  }

  lemma {:induction false} DistinctCount<T>(q: seq<T>, x: T)
    requires Distinct(q)
    ensures multiset(q)[x] == if x in q then 1 else 0
  {
    if q != [] {
      var last := |q| - 1;
      assert q == q[..last] + [q[last]];
      DistinctCount(q[..last], x);
      assert x in q <==> x in q[..last] || x == q[last];
    }
  }

  lemma DistinctSame<T>(q: seq<T>, r: seq<T>)
    requires Distinct(q) && Distinct(r) && forall x :: x in q <==> x in r
    ensures multiset(q) == multiset(r)
  {
    forall x ensures multiset(q)[x] == multiset(r)[x] {
      DistinctCount(q, x);
      DistinctCount(r, x);
    }
  }

  lemma TwiceInMultiset<T>(q: seq<T>, i: nat, j: nat)
    requires i < j < |q| && q[i] == q[j]
    ensures multiset(q)[q[i]] >= 2
  {
    assert q == q[..j] + [q[j]] + q[j + 1..];
    assert q[..j][i] == q[i] && q[i] in q[..j];
    assert multiset(q) == multiset(q[..j]) + multiset{q[j]} + multiset(q[j + 1..]);
  }

  lemma DistinctPermuted<T>(p: seq<T>, q: seq<T>)
    requires Distinct(p) && multiset(p) == multiset(q)
    ensures Distinct(q)
  {
    forall i, j | 0 <= i < j < |q| ensures q[i] != q[j] {
      if q[i] == q[j] {
        TwiceInMultiset(q, i, j);
        DistinctCount(p, q[i]);
      }
    }
  }

  /** Everything, or only the first few when there is a cap; no cap is written as zero. */
  function Capped<T>(q: seq<T>, cap: nat): seq<T> { if cap == 0 || |q| <= cap then q else q[..cap] }

  lemma AppendedFacts<T>(q: seq<T>, more: seq<T>, cap: nat, all: seq<T>)
    requires all == Capped(Dedupe(q + more), cap)
    ensures Distinct(all) && (cap > 0 ==> |all| <= cap)
    ensures forall x :: x in all ==> x in q || x in more
    ensures (cap == 0 || |all| < cap) ==> (forall x :: x in q ==> x in all) && (forall x :: x in more ==> x in all)
  {
    var kept := Dedupe(q + more);
    DedupeFacts(q + more);
    assert all == kept[..|all|];
    forall x | x in all ensures x in q || x in more {
      assert x in kept && x in q + more;
    }
    if cap == 0 || |all| < cap {
      assert all == kept;
      forall x | x in q || x in more ensures x in all { assert x in q + more; }
    }
  }

  lemma SplitAppended<T>(q: seq<T>, more: seq<T>, n: nat)
    requires n <= |more|
    ensures q + more == (q + more[..n]) + more[n..]
  {}

  lemma NextAppended<T>(q: seq<T>, more: seq<T>, n: nat)
    requires n < |more|
    ensures q + more[..n + 1] == (q + more[..n]) + [more[n]]
  {}

  /** Appends the rows that are new, stopping at the cap. */
  method AppendNew<T(==)>(kept0: seq<T>, rows: seq<T>, cap: nat) returns (kept: seq<T>)
    requires Distinct(kept0) && (cap > 0 ==> |kept0| < cap)
    ensures kept == Capped(Dedupe(kept0 + rows), cap)
  {
    hide Distinct, Dedupe;
    kept := kept0;
    DedupeDistinct(kept0);
    assert kept0 + rows[..0] == kept0;
    for n := 0 to |rows|
      invariant kept == Dedupe(kept0 + rows[..n]) && (cap > 0 ==> |kept| < cap)
    {
      NextAppended(kept0, rows, n);
      DedupeSnoc(kept0 + rows[..n], rows[n]);
      if rows[n] !in kept {
        kept := kept + [rows[n]];
        if cap > 0 && |kept| >= cap {
          SplitAppended(kept0, rows, n + 1);
          DedupeExtends(kept0 + rows[..n + 1], rows[n + 1..]);
          return;
        }
      }
    }
    assert rows[..|rows|] == rows;
  }
}
