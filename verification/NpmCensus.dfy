/** Listing npm package ids page by page from an inclusive start key, with a page size that
    shrinks when a request fails. */
module NpmCensus {
  import opened Wrappers
  import opened Sequences

  /** The rank of an id in the registry's collation order. */
  type Id = nat

  const MIN_PAGE_SIZE := 10
  const USIZE_MAX := 0xFFFF_FFFF_FFFF_FFFF

  /** The registry, in order, and which of its ids start with an underscore. */
  datatype Registry = Registry(ids: seq<Id>, hidden: set<Id>)

  ghost predicate Sorted(q: seq<Id>) { forall i, j :: 0 <= i < j < |q| ==> q[i] < q[j] }

  /** The ids from `key` on. */
  function From(q: seq<Id>, key: Id): seq<Id> { if q == [] || q[0] >= key then q else From(q[1..], key) }

  /** A page answers with the start key itself, when it is an id, and what follows it. */
  function Page(g: Registry, last: Option<Id>, size: nat): seq<Id> {
    var all := if last.Some? then From(g.ids, last.value) else g.ids;
    if |all| <= size then all else all[..size]
  }

  /** The page size after some failed requests; with too many the listing fails. */
  function Shrunk(size: nat, failures: nat): Option<nat> {
    if failures == 0 then Some(size)
    else if size > MIN_PAGE_SIZE then Shrunk(NextSize(size), failures - 1)
    else None
  }

  function NextSize(size: nat): nat { if size / 2 < MIN_PAGE_SIZE then MIN_PAGE_SIZE else size / 2 }

  function Visible(g: Registry, q: seq<Id>): seq<Id> {
    if q == [] then [] else (if q[0] in g.hidden then [] else [q[0]]) + Visible(g, q[1..])
  }

  function First<T>(q: seq<T>, n: nat): seq<T> { if |q| <= n then q else q[..n] }

  /** What comes strictly after the last id. */
  function Rest(g: Registry, last: Option<Id>): seq<Id> { if last.Some? then From(g.ids, last.value + 1) else g.ids }

  /** Whether the next page spends its first row on the last id. */
  predicate Held(g: Registry, last: Option<Id>) { last.Some? && last.value in g.ids }

  /** The listing, page by page: `failures(k)` requests fail before page `k` is answered. */
  function Listing(g: Registry, last: Option<Id>, want: nat, size: nat, failures: nat -> nat, k: nat): Result<seq<Id>>
    decreases want
  {
    if want == 0 then Ok([]) else
    var shrunk := Shrunk(size, failures(k));
    if shrunk == None then Err else
    var emitted := Emitted(g, last, want, shrunk.value);
    if emitted == [] then Ok([]) else
    var more := Listing(g, Some(emitted[|emitted| - 1]), want - |emitted|, shrunk.value, failures, k + 1);
    if more == Err then Err else Ok(emitted + more.value)
  }

  /** The new visible ids of a page, up to the limit. */
  function Emitted(g: Registry, last: Option<Id>, want: nat, size: nat): (e: seq<Id>)
    ensures |e| <= want
  {
    var room := if Held(g, last) then (if size == 0 then 0 else size - 1) else size;
    First(Visible(g, First(Rest(g, last), room)), want)
  }

  /** What the listing should return. */
  function Wanted(g: Registry, last: Option<Id>, want: nat): seq<Id> { First(Visible(g, Rest(g, last)), want) }

  // ----- the code

  lemma {:induction false} FromSplits(q: seq<Id>, key: Id)
    requires Sorted(q)
    ensures From(q, key) == (if key in q then [key] else []) + From(q, key + 1)
  {
    if q != [] {
      if q[0] < key {
        FromSplits(q[1..], key);
      } else if q[0] == key {
        assert |q| > 1 ==> q[1] > key;
        assert From(q, key + 1) == q[1..];
        assert q == [key] + q[1..];
      }
    }
  }

  lemma {:induction false} FromFacts(q: seq<Id>, key: Id)
    requires Sorted(q)
    ensures Sorted(From(q, key)) && forall x :: x in From(q, key) <==> x in q && x >= key
  {
    if q != [] && q[0] < key {
      FromFacts(q[1..], key);
      assert q == [q[0]] + q[1..];
    }
  }

  lemma {:induction false} FromTail(q: seq<Id>, key: Id, j: nat)
    requires Sorted(q) && j < |From(q, key)|
    ensures From(q, From(q, key)[j] + 1) == From(q, key)[j + 1..]
  {
    if q[0] < key {
      FromTail(q[1..], key, j);
      FromFacts(q[1..], key);
      assert From(q[1..], key)[j] in From(q[1..], key);
    } else if j > 0 {
      FromTail(q[1..], 0, j - 1);
      assert From(q[1..], 0) == q[1..];
    } else if |q| > 1 {
      assert q[1] > q[0];
    }
  }

  lemma {:induction false} VisibleSplit(g: Registry, q: seq<Id>, r: seq<Id>)
    ensures Visible(g, q + r) == Visible(g, q) + Visible(g, r)
  {
    if q == [] {
      assert q + r == r;
    } else {
      VisibleSplit(g, q[1..], r);
      assert (q + r)[1..] == q[1..] + r && (q + r)[0] == q[0];
      var head := if q[0] in g.hidden then [] else [q[0]];
      assert Visible(g, q + r) == head + Visible(g, q[1..] + r);
      Reassociate(head, Visible(g, q[1..]), Visible(g, r));
    }
  }

  /** A page without the last id itself. */
  function Fresh(rows: seq<Id>, last: Option<Id>): seq<Id> { if rows != [] && last == Some(rows[0]) then rows[1..] else rows }

  lemma PageIsFresh(g: Registry, last: Option<Id>, size: nat)
    requires Sorted(g.ids) && size > 0
    ensures Fresh(Page(g, last, size), last) == First(Rest(g, last), if Held(g, last) then size - 1 else size)
    ensures Page(g, last, size) == [] ==> Rest(g, last) == []
    ensures Sorted(Fresh(Page(g, last, size), last)) && forall x :: x in Fresh(Page(g, last, size), last) ==> last != Some(x)
  {
    if last.Some? {
      FromSplits(g.ids, last.value);
      FromFacts(g.ids, last.value);
      FromFacts(g.ids, last.value + 1);
    }
  }

  ghost predicate PageFor(rows: seq<Id>, last0: Option<Id>) {
    Sorted(Fresh(rows, last0)) && forall x :: x in Fresh(rows, last0) ==> last0 != Some(x)
  }

  /** The row loop before row `n`. */
  ghost predicate Emitting(g: Registry, rows: seq<Id>, last0: Option<Id>, n: nat, emitted: seq<Id>, last: Option<Id>) {
    var news := Fresh(rows, last0);
    var m := if n < |rows| - |news| then 0 else n - (|rows| - |news|);
    && n <= |rows| && m <= |news|
    && emitted == Visible(g, news[..m])
    && last == (if emitted == [] then last0 else Some(emitted[|emitted| - 1]))
    && forall i :: m <= i < |news| ==> last != Some(news[i])
  }

  lemma EmitStart(g: Registry, rows: seq<Id>, last0: Option<Id>)
    requires PageFor(rows, last0)
    ensures Emitting(g, rows, last0, 0, [], last0)
  {
    assert Fresh(rows, last0)[..0] == [];
  }

  lemma EmitStep(g: Registry, rows: seq<Id>, last0: Option<Id>, n: nat, emitted: seq<Id>, last: Option<Id>)
    requires PageFor(rows, last0) && Emitting(g, rows, last0, n, emitted, last) && n < |rows|
    ensures rows[n] in g.hidden || last == Some(rows[n]) ==> Emitting(g, rows, last0, n + 1, emitted, last)
    ensures rows[n] !in g.hidden && last != Some(rows[n]) ==> Emitting(g, rows, last0, n + 1, emitted + [rows[n]], Some(rows[n]))
  {
    hide Visible;
    var news := Fresh(rows, last0);
    var skipped := |rows| - |news|;
    if n < skipped {
      NothingEmitted(g, rows, last0, n, emitted, last);
    } else {
      var m := n - skipped;
      assert rows[n] == news[m];
      VisibleNext(g, news, m);
    }
  }

  lemma NothingEmitted(g: Registry, rows: seq<Id>, last0: Option<Id>, n: nat, emitted: seq<Id>, last: Option<Id>)
    requires Emitting(g, rows, last0, n, emitted, last) && n < |rows| - |Fresh(rows, last0)|
    ensures last == last0 == Some(rows[0]) && n == 0
  {
    assert Visible(g, []) == [];
  }

  lemma VisibleNext(g: Registry, q: seq<Id>, m: nat)
    requires m < |q|
    ensures Visible(g, q[..m + 1]) == if q[m] in g.hidden then Visible(g, q[..m]) else Visible(g, q[..m]) + [q[m]]
  {
    assert q[..m + 1] == q[..m] + [q[m]];
    VisibleSplit(g, q[..m], [q[m]]);
    assert [q[m]][1..] == [];
  }

  lemma EmitEnd(g: Registry, rows: seq<Id>, last0: Option<Id>, n: nat, emitted: seq<Id>, last: Option<Id>, limit: nat)
    requires Emitting(g, rows, last0, n, emitted, last) && |emitted| <= limit && (n == |rows| || |emitted| == limit)
    ensures emitted == First(Visible(g, Fresh(rows, last0)), limit)
  {
    hide Visible;
    var news := Fresh(rows, last0);
    var m := if n < |rows| - |news| then 0 else n - (|rows| - |news|);
    assert news == news[..m] + news[m..];
    VisibleSplit(g, news[..m], news[m..]);
    if n == |rows| { assert news[..m] == news; }
  }

  /** Every visible row of a page but the last id, up to the limit. */
  method EmitRows(g: Registry, rows: seq<Id>, last0: Option<Id>, packages0: seq<Id>, limit: nat)
    returns (packages: seq<Id>, last: Option<Id>, emitted: nat)
    requires |packages0| < limit && PageFor(rows, last0)
    ensures var e := First(Visible(g, Fresh(rows, last0)), limit - |packages0|);
            && packages == packages0 + e && emitted == |e| && (e == [] ==> packages == packages0)
            && last == if e == [] then last0 else Some(e[|e| - 1])
  {
    packages, last, emitted := packages0, last0, 0;
    ghost var found: seq<Id> := [];
    EmitStart(g, rows, last0);
    hide *;
    for n := 0 to |rows|
      invariant Emitting(g, rows, last0, n, found, last)
      invariant packages == packages0 + found && emitted == |found| && |packages| < limit
    {
      Reassociate(packages0, found, [rows[n]]);
      EmitStep(g, rows, last0, n, found, last);
      if rows[n] in g.hidden { continue; }
      if last == Some(rows[n]) { continue; }
      last := Some(rows[n]);
      packages := packages + [rows[n]];
      found := found + [rows[n]];
      emitted := emitted + 1;
      if |packages| >= limit {
        EmitEnd(g, rows, last0, n + 1, found, last, limit - |packages0|);
        return;
      }
    }
    EmitEnd(g, rows, last0, |rows|, found, last, limit - |packages0|);
  }

  /** Repeats a request, with a smaller page each time it fails. */
  method RequestPage(size0: nat, failures: nat) returns (size: Option<nat>)
    requires size0 > 0
    ensures size == Shrunk(size0, failures)
    ensures size.Some? ==> size.value > 0
  {
    var current, left := size0, failures;
    while left > 0
      invariant current > 0 && Shrunk(size0, failures) == Shrunk(current, left)
    {
      if current > MIN_PAGE_SIZE {
        current := NextSize(current);
        left := left - 1;
        continue;
      }
      return None;
    }
    return Some(current);
  }

  function Prepended(packages: seq<Id>, more: Result<seq<Id>>): Result<seq<Id>> {
    if more == Err then Err else Ok(packages + more.value)
  }

  lemma PrependedNothing(r: Result<seq<Id>>)
    ensures Prepended([], r) == r
  {
    if r.Ok? { assert [] + r.value == r.value; }
  }

  lemma PageEmits(g: Registry, last: Option<Id>, want: nat, size: nat)
    requires Sorted(g.ids) && size > 0
    ensures PageFor(Page(g, last, size), last)
    ensures Emitted(g, last, want, size) == First(Visible(g, Fresh(Page(g, last, size), last)), want)
    ensures Page(g, last, size) == [] ==> Emitted(g, last, want, size) == []
  {
    PageIsFresh(g, last, size);
  }

  lemma ListingStep(packages: seq<Id>, g: Registry, last: Option<Id>, want: nat, size: nat, failures: nat -> nat, k: nat)
    requires want > 0
    ensures var here, shrunk := Prepended(packages, Listing(g, last, want, size, failures, k)), Shrunk(size, failures(k));
            if shrunk == None then here == Err else
            var e := Emitted(g, last, want, shrunk.value);
            if e == [] then here == Ok(packages)
            else here == Prepended(packages + e, Listing(g, Some(e[|e| - 1]), want - |e|, shrunk.value, failures, k + 1))
  {
    hide Emitted, Shrunk;
    assert packages + [] == packages;
    var shrunk := Shrunk(size, failures(k));
    if shrunk.Some? {
      var e := Emitted(g, last, want, shrunk.value);
      if e != [] {
        var more := Listing(g, Some(e[|e| - 1]), want - |e|, shrunk.value, failures, k + 1);
        if more.Ok? { Reassociate(packages, e, more.value); }
      }
    }
  }

  lemma ListingDone(packages: seq<Id>, g: Registry, last: Option<Id>, size: nat, failures: nat -> nat, k: nat)
    ensures Prepended(packages, Listing(g, last, 0, size, failures, k)) == Ok(packages)
  {
    assert packages + [] == packages;
  }

  /** No limit is written as zero. */
  function Want(limit: nat): nat { if limit == 0 then USIZE_MAX else limit }

  function StartSize(pageSize: nat): nat { if pageSize == 0 then 1 else pageSize }

  lemma StartSizePositive(pageSize: nat)
    ensures StartSize(pageSize) > 0
  {}

  /** The code lists exactly what `Listing` says. */
  method FetchNpmAllDocs(g: Registry, startKey: Option<Id>, limit: nat, pageSize: nat, failures: nat -> nat) returns (r: Result<seq<Id>>)
    requires Sorted(g.ids)
    ensures r == Listing(g, startKey, Want(limit), StartSize(pageSize), failures, 0)
  {
    StartSizePositive(pageSize);
    hide *;
    var want := Want(limit);
    var size := StartSize(pageSize);
    var packages: seq<Id> := [];
    var last, page := startKey, 0;
    ghost var whole := Listing(g, startKey, want, size, failures, 0);
    PrependedNothing(whole);
    while |packages| < want
      invariant size > 0 && |packages| <= want
      invariant whole == Prepended(packages, Listing(g, last, want - |packages|, size, failures, page))
      decreases want - |packages|
    {
      ListingStep(packages, g, last, want - |packages|, size, failures, page);
      var answered := RequestPage(size, failures(page));
      if answered == None { return Err; }
      size := answered.value;
      var rows := Page(g, last, size);
      PageEmits(g, last, want - |packages|, size);
      if rows == [] { return Ok(packages); }
      var emitted;
      packages, last, emitted := EmitRows(g, rows, last, packages, want);
      if emitted == 0 { return Ok(packages); }
      page := page + 1;
    }
    ListingDone(packages, g, last, size, failures, page);
    return Ok(packages);
  }
}
