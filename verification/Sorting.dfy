/** Stable sorting by a comparison. */
module Sorting {

  ghost predicate TotalOrder<T(!new)>(le: (T, T) -> bool) {
    && (forall x, y :: le(x, y) || le(y, x))
    && (forall x, y, z :: le(x, y) && le(y, z) ==> le(x, z))
  }

  ghost predicate SortedBy<T>(le: (T, T) -> bool, q: seq<T>) { forall i, j :: 0 <= i < j < |q| ==> le(q[i], q[j]) }

  function Insert<T>(le: (T, T) -> bool, x: T, q: seq<T>): seq<T> {
    if q == [] || le(x, q[0]) then [x] + q else [q[0]] + Insert(le, x, q[1..])
  }

  /** Equal elements keep their order. */
  function Sort<T>(le: (T, T) -> bool, q: seq<T>): seq<T> { if q == [] then [] else Insert(le, q[0], Sort(le, q[1..])) }

  lemma {:induction false} InsertKeeps<T>(le: (T, T) -> bool, x: T, q: seq<T>)
    ensures multiset(Insert(le, x, q)) == multiset{x} + multiset(q)
  {
    if q != [] && !le(x, q[0]) {
      InsertKeeps(le, x, q[1..]);
      assert q == [q[0]] + q[1..];
    }
  }

  lemma {:induction false} InsertSorts<T(!new)>(le: (T, T) -> bool, x: T, q: seq<T>)
    requires TotalOrder(le) && SortedBy(le, q)
    ensures SortedBy(le, Insert(le, x, q))
  {
    var r := Insert(le, x, q);
    if q != [] && !le(x, q[0]) {
      InsertSorts(le, x, q[1..]);
      var rest := Insert(le, x, q[1..]);
      InsertKeeps(le, x, q[1..]);
      forall j | 0 <= j < |rest| ensures le(q[0], rest[j]) {
        assert rest[j] in multiset(rest);
        assert rest[j] == x || rest[j] in q[1..];
      }
    } else if q != [] {
      forall j | 0 <= j < |q| ensures le(x, q[j]) {
        assert j > 0 ==> le(q[0], q[j]);
      }
    }
  }

  lemma {:induction false} SortFacts<T(!new)>(le: (T, T) -> bool, q: seq<T>)
    requires TotalOrder(le)
    ensures SortedBy(le, Sort(le, q)) && multiset(Sort(le, q)) == multiset(q)
  {
    if q != [] {
      SortFacts(le, q[1..]);
      InsertSorts(le, q[0], Sort(le, q[1..]));
      InsertKeeps(le, q[0], Sort(le, q[1..]));
      assert q == [q[0]] + q[1..];
    }
  }

  lemma HeadIsLeast<T(!new)>(le: (T, T) -> bool, p: seq<T>, x: T)
    requires TotalOrder(le) && SortedBy(le, p) && x in p
    ensures le(p[0], x)
  {}

  lemma TakeHead<T>(q: seq<T>)
    requires q != []
    ensures multiset(q[1..]) == multiset(q) - multiset{q[0]} && forall x :: x in q[1..] ==> x in q
  {
    assert q == [q[0]] + q[1..];
  }

  lemma Without<T>(q: seq<T>, i: nat)
    requires i < |q|
    ensures multiset(q[..i] + q[i + 1..]) == multiset(q) - multiset{q[i]}
  {
    assert q == q[..i] + [q[i]] + q[i + 1..];
  }

  lemma SameMembers<T>(p: seq<T>, q: seq<T>)
    requires multiset(p) == multiset(q)
    ensures |p| == |q| && forall x :: x in p <==> x in q
  {
    assert |p| == |multiset(p)| && |q| == |multiset(q)|;
    forall x ensures x in p <==> x in q { assert x in multiset(p) <==> x in multiset(q); }
  }

  /** Equally ranked elements are equal. */
  ghost predicate Strict<T(!new)>(le: (T, T) -> bool, p: seq<T>) {
    forall x, y :: x in p && y in p && le(x, y) && le(y, x) ==> x == y
  }

  lemma SortedTail<T(!new)>(le: (T, T) -> bool, p: seq<T>)
    requires SortedBy(le, p) && p != []
    ensures SortedBy(le, p[1..]) && (Strict(le, p) ==> Strict(le, p[1..]))
  {
    forall x | x in p[1..] ensures x in p {}
  }

  /** When equally ranked elements are equal there is only one sorted arrangement. */
  lemma SameTails<T>(p: seq<T>, q: seq<T>)
    requires p != [] && q != [] && p[0] == q[0] && multiset(p) == multiset(q)
    ensures multiset(p[1..]) == multiset(q[1..])
  {
    TakeHead(p);
    TakeHead(q);
  }

  lemma StrictTail<T(!new)>(le: (T, T) -> bool, p: seq<T>)
    requires p != [] && Strict(le, p)
    ensures Strict(le, p[1..])
  {}

  lemma SameHead<T(!new)>(le: (T, T) -> bool, p: seq<T>, q: seq<T>)
    requires TotalOrder(le) && SortedBy(le, p) && SortedBy(le, q) && multiset(p) == multiset(q) && Strict(le, p) && p != []
    ensures q != [] && p[0] == q[0]
  {
    SameMembers(p, q);
    HeadIsLeast(le, p, q[0]);
    HeadIsLeast(le, q, p[0]);
    hide TotalOrder, SortedBy;
  }

  lemma {:induction false} SortedUnique<T(!new)>(le: (T, T) -> bool, p: seq<T>, q: seq<T>)
    requires TotalOrder(le) && SortedBy(le, p) && SortedBy(le, q) && multiset(p) == multiset(q) && Strict(le, p)
    ensures p == q
  {
    hide *;
    if p == [] {
      SameMembers(p, q);
      assert q == [];
    } else {
      SameHead(le, p, q);
      SortedTail(le, p);
      SortedTail(le, q);
      StrictTail(le, p);
      SameTails(p, q);
      SortedUnique(le, p[1..], q[1..]);
      assert p == [p[0]] + p[1..] && q == [q[0]] + q[1..];
    }
  }

  /** What ranks before everything else may be sorted on its own. */
  lemma {:induction false} InsertInFront<T(!new)>(le: (T, T) -> bool, x: T, p: seq<T>, r: seq<T>)
    requires forall y :: y in r ==> le(x, y)
    ensures Insert(le, x, p + r) == Insert(le, x, p) + r
  {
    if p == [] {
      assert p + r == r;
      assert [x] + r == Insert(le, x, p) + r;
    } else if le(x, p[0]) {
      assert [x] + (p + r) == [x] + p + r;
    } else {
      assert (p + r)[1..] == p[1..] + r;
      InsertInFront(le, x, p[1..], r);
      assert [p[0]] + (Insert(le, x, p[1..]) + r) == [p[0]] + Insert(le, x, p[1..]) + r;
    }
  }

  lemma {:induction false} SortInFront<T(!new)>(le: (T, T) -> bool, p: seq<T>, r: seq<T>)
    requires TotalOrder(le) && forall x, y :: x in p && y in r ==> le(x, y)
    ensures Sort(le, p + r) == Sort(le, p) + Sort(le, r)
  {
    if p == [] {
      assert p + r == r;
      assert Sort(le, r) == [] + Sort(le, r);
    } else {
      assert (p + r)[1..] == p[1..] + r;
      assert p == [p[0]] + p[1..];
      SortInFront(le, p[1..], r);
      SortFacts(le, r);
      SameMembers(Sort(le, r), r);
      hide Insert, Sort, TotalOrder;
      InsertInFront(le, p[0], Sort(le, p[1..]), Sort(le, r));
      SortHead(le, p);
      SortHead(le, p + r);
    }
  }

  lemma SortHead<T>(le: (T, T) -> bool, p: seq<T>)
    requires p != []
    ensures Sort(le, p) == Insert(le, p[0], Sort(le, p[1..]))
  {}
}
