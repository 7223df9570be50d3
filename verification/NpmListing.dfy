/** When the paged listing of npm ids is complete. */
module NpmListing {
  import opened Wrappers
  import opened NpmCensus

  /** The smallest page the listing can be driven to. */
  function SmallestPage(pageSize: nat): (m: nat)
    ensures 1 <= m <= MIN_PAGE_SIZE
  {
    if pageSize == 0 then 1 else if pageSize < MIN_PAGE_SIZE then pageSize else MIN_PAGE_SIZE
  }

  /** With `room` rows left on this page and pages of `m` rows, of which the first repeats the
      last id, no stretch of hidden ids before a wanted one fills a page. */
  predicate Reaches(g: Registry, q: seq<Id>, room: nat, m: nat, want: nat)
    requires m > 0
  {
    if want == 0 || Visible(g, q) == [] then true
    else if room == 0 then false
    else if q[0] in g.hidden then Reaches(g, q[1..], room - 1, m, want)
    else Reaches(g, q[1..], m - 1, m, want - 1)
  }

  function Room(g: Registry, last: Option<Id>, size: nat): nat
    requires size > 0
  {
    if Held(g, last) then size - 1 else size
  }

  // ----- one page

  lemma VisibleCons(g: Registry, q: seq<Id>, n: nat)
    requires 0 < n <= |q|
    ensures Visible(g, q[..n]) == (if q[0] in g.hidden then [] else [q[0]]) + Visible(g, q[1..][..n - 1])
  {
    assert q[..n][1..] == q[1..][..n - 1];
  }

  lemma PageCons(g: Registry, q: seq<Id>, room: nat)
    ensures q == [] || room == 0 ==> Visible(g, First(q, room)) == []
    ensures q != [] && room > 0 ==>
      Visible(g, First(q, room)) == (if q[0] in g.hidden then [] else [q[0]]) + Visible(g, First(q[1..], room - 1))
  {
    if q != [] && room > 0 {
      var rows := First(q, room);
      assert rows == q[..|rows|] && First(q[1..], room - 1) == q[1..][..|rows| - 1];
      VisibleCons(g, q, |rows|);
    }
  }

  /** A page's rows are emitted up to the last visible one, or up to the limit. */
  lemma {:induction false} EmittedUpTo(g: Registry, q: seq<Id>, room: nat, want: nat) returns (j: nat)
    requires First(Visible(g, First(q, room)), want) != []
    ensures j < |q| && j < room && q[j] !in g.hidden
    ensures First(Visible(g, First(q, room)), want) == Visible(g, q[..j + 1])
  {
    hide Visible;
    PageCons(g, q, room);
    var head := if q[0] in g.hidden then [] else [q[0]];
    var inner := want - |head|;
    FirstAppend(head, Visible(g, First(q[1..], room - 1)), want);
    hide First;
    if First(Visible(g, First(q[1..], room - 1)), inner) == [] {
      j := 0;
      OneVisible(g, q);
      assert head + [] == head;
    } else {
      j := EmittedUpTo(g, q[1..], room - 1, inner);
      j := j + 1;
      VisibleCons(g, q, j + 1);
    }
  }

  lemma OneVisible(g: Registry, q: seq<Id>)
    requires q != []
    ensures Visible(g, q[..1]) == if q[0] in g.hidden then [] else [q[0]]
  {
    VisibleCons(g, q, 1);
    assert q[1..][..0] == [];
  }

  lemma FirstAppend(head: seq<Id>, tail: seq<Id>, want: nat)
    requires |head| <= want
    ensures First(head + tail, want) == head + First(tail, want - |head|)
  {}

  lemma ListingUnfold(g: Registry, last: Option<Id>, want: nat, size: nat, failures: nat -> nat, k: nat)
    requires want > 0
    ensures Listing(g, last, want, size, failures, k) == Err || Shrunk(size, failures(k)).Some?
    ensures Shrunk(size, failures(k)).Some? ==>
            var p := Shrunk(size, failures(k)).value;
            var e := Emitted(g, last, want, p);
            Listing(g, last, want, size, failures, k)
            == (if e == [] then Ok([]) else Prepended(e, Listing(g, Some(e[|e| - 1]), want - |e|, p, failures, k + 1)))
  {
    hide Emitted, Shrunk;
  }

  lemma RestAfter(g: Registry, last: Option<Id>, j: nat)
    requires Sorted(g.ids) && j < |Rest(g, last)|
    ensures Rest(g, Some(Rest(g, last)[j])) == Rest(g, last)[j + 1..]
    ensures Held(g, Some(Rest(g, last)[j]))
  {
    if last.Some? {
      FromTail(g.ids, last.value + 1, j);
      FromFacts(g.ids, last.value + 1);
    } else {
      assert From(g.ids, 0) == g.ids;
      FromTail(g.ids, 0, j);
    }
  }

  lemma LastVisible(g: Registry, q: seq<Id>, j: nat)
    requires j < |q| && q[j] !in g.hidden
    ensures var e := Visible(g, q[..j + 1]);
            && e != [] && e[|e| - 1] == q[j] && Visible(g, q) == e + Visible(g, q[j + 1..])
  {
    hide Visible;
    VisibleNext(g, q, j);
    VisibleSplit(g, q[..j + 1], q[j + 1..]);
    assert q == q[..j + 1] + q[j + 1..];
  }

  /** What a page with new visible ids does to the listing. */
  lemma PageTaken(g: Registry, last: Option<Id>, want: nat, size: nat) returns (j: nat)
    requires Sorted(g.ids) && size > 0 && Emitted(g, last, want, size) != []
    ensures var q, e := Rest(g, last), Emitted(g, last, want, size);
            && j < |q| && j < Room(g, last, size) && q[j] !in g.hidden && e == Visible(g, q[..j + 1])
            && Rest(g, Some(e[|e| - 1])) == q[j + 1..] && Held(g, Some(e[|e| - 1]))
            && Wanted(g, last, want) == e + Wanted(g, Some(e[|e| - 1]), want - |e|)
  {
    hide Visible, Rest, Held;
    var q := Rest(g, last);
    j := EmittedUpTo(g, q, Room(g, last, size), want);
    RestAfter(g, last, j);
    LastVisible(g, q, j);
  }

  // ----- what is returned is never wrong

  /** A successful listing returns the first of the wanted ids, in order, without gaps or
      repetitions, whatever requests fail. */
  lemma {:induction false} ListingIsPrefix(g: Registry, last: Option<Id>, want: nat, size: nat, failures: nat -> nat, k: nat)
    requires Sorted(g.ids) && size > 0
    ensures var r := Listing(g, last, want, size, failures, k); r.Ok? ==> r.value <= Wanted(g, last, want)
    decreases want
  {
    hide Emitted, Wanted, Visible;
    if want > 0 && Listing(g, last, want, size, failures, k).Ok? {
      ShrunkSize(size, failures(k), 1);
      var p := Shrunk(size, failures(k)).value;
      var e := Emitted(g, last, want, p);
      ListingUnfold(g, last, want, size, failures, k);
      hide Listing;
      if e != [] {
        var j := PageTaken(g, last, want, p);
        ListingIsPrefix(g, Some(e[|e| - 1]), want - |e|, p, failures, k + 1);
      }
    }
  }

  lemma {:induction false} ShrunkSize(size: nat, failures: nat, m: nat)
    requires 1 <= m <= MIN_PAGE_SIZE && m <= size
    ensures var s := Shrunk(size, failures); s.Some? ==> s.value >= m
    decreases failures
  {
    if failures > 0 && size > MIN_PAGE_SIZE { ShrunkSize(NextSize(size), failures - 1, m); }
  }

  // ----- when everything is returned

  lemma {:induction false} ReachesOn(g: Registry, q: seq<Id>, room: nat, m: nat, want: nat, j: nat)
    requires m > 0 && j < |q| && q[j] !in g.hidden && |Visible(g, q[..j + 1])| <= want
    ensures Reaches(g, q, room, m, want) ==> Reaches(g, q[j + 1..], m - 1, m, want - |Visible(g, q[..j + 1])|)
    ensures j < room <= m && Reaches(g, q[j + 1..], m - 1, m, want - |Visible(g, q[..j + 1])|) ==> Reaches(g, q, room, m, want)
    decreases j
  {
    VisibleCons(g, q, j + 1);
    LastVisible(g, q, j);
    if j == 0 {
      assert q[1..][..0] == [];
    } else {
      assert q[1..][..j] == q[1..][..j - 1 + 1] && q[1..][j..] == q[j + 1..];
      if q[0] in g.hidden {
        if room > 0 { ReachesOn(g, q[1..], room - 1, m, want, j - 1); }
      } else {
        ReachesOn(g, q[1..], m - 1, m, want - 1, j - 1);
      }
    }
  }

  lemma {:induction false} RoomShowsOne(g: Registry, q: seq<Id>, room: nat, m: nat, want: nat, actual: nat)
    requires m > 0 && want > 0 && Reaches(g, q, room, m, want) && Visible(g, q) != [] && actual >= room
    ensures First(Visible(g, First(q, actual)), want) != []
  {
    if q[0] in g.hidden {
      RoomShowsOne(g, q[1..], room - 1, m, want, actual - 1);
      assert First(q[1..], actual - 1) == First(q, actual)[1..];
    } else {
      assert First(q, actual)[0] == q[0];
    }
  }

  /** Whether the listing will be cut short is the same before and after a smallest page, and
      a larger page only helps. */
  lemma PageReaches(g: Registry, last: Option<Id>, want: nat, size: nat, m: nat)
    requires Sorted(g.ids) && 1 <= m <= size && Emitted(g, last, want, size) != []
    ensures var e := Emitted(g, last, want, size);
            var next := Some(e[|e| - 1]);
            && Wanted(g, last, want) == e + Wanted(g, next, want - |e|)
            && (Reaches(g, Rest(g, last), Room(g, last, m), m, want) ==> Reaches(g, Rest(g, next), Room(g, next, m), m, want - |e|))
            && (size == m && Reaches(g, Rest(g, next), Room(g, next, m), m, want - |e|) ==> Reaches(g, Rest(g, last), Room(g, last, m), m, want))
  {
    hide Emitted, Visible, Reaches, Rest, Wanted, Held;
    var j := PageTaken(g, last, want, size);
    ReachesOn(g, Rest(g, last), Room(g, last, m), m, want, j);
  }

  /** Short enough stretches of hidden ids never stop the listing. */
  lemma {:induction false} CompleteIfReaches(g: Registry, last: Option<Id>, want: nat, size: nat, failures: nat -> nat, k: nat, m: nat)
    requires Sorted(g.ids) && 1 <= m <= MIN_PAGE_SIZE && m <= size
    requires Reaches(g, Rest(g, last), Room(g, last, m), m, want)
    ensures var r := Listing(g, last, want, size, failures, k); r.Ok? ==> r.value == Wanted(g, last, want)
    decreases want
  {
    hide *;
    if want == 0 {
      NothingWanted(g, last, size, failures, k);
    } else if Listing(g, last, want, size, failures, k).Ok? {
      ListingUnfold(g, last, want, size, failures, k);
      ShrunkSize(size, failures(k), m);
      var p := Shrunk(size, failures(k)).value;
      var e := Emitted(g, last, want, p);
      if e == [] {
        NothingMore(g, last, want, p, m);
      } else {
        var next := Some(e[|e| - 1]);
        PageReaches(g, last, want, p, m);
        CompleteIfReaches(g, next, want - |e|, p, failures, k + 1, m);
        PrependedIsOk(e, Listing(g, next, want - |e|, p, failures, k + 1));
      }
    }
  }

  lemma NothingWanted(g: Registry, last: Option<Id>, size: nat, failures: nat -> nat, k: nat)
    ensures Listing(g, last, 0, size, failures, k) == Ok([]) && Wanted(g, last, 0) == []
  {}

  lemma PrependedIsOk(packages: seq<Id>, more: Result<seq<Id>>)
    ensures Prepended(packages, more) == if more.Ok? then Ok(packages + more.value) else Err
  {}

  lemma NothingMore(g: Registry, last: Option<Id>, want: nat, size: nat, m: nat)
    requires want > 0 && 1 <= m <= size && Reaches(g, Rest(g, last), Room(g, last, m), m, want)
    requires Emitted(g, last, want, size) == []
    ensures Wanted(g, last, want) == []
  {
    var q := Rest(g, last);
    hide Visible, Reaches, Rest;
    if Visible(g, q) != [] { RoomShowsOne(g, q, Room(g, last, m), m, want, Room(g, last, size)); }
  }

  /** Requests that never fail. */
  function NoFailures(): nat -> nat { _ => 0 }

  /** At the smallest page size a long stretch of hidden ids ends the listing early. */
  lemma {:induction false} ShortUnlessReaches(g: Registry, last: Option<Id>, want: nat, m: nat, k: nat)
    requires Sorted(g.ids) && 1 <= m && !Reaches(g, Rest(g, last), Room(g, last, m), m, want)
    ensures var r := Listing(g, last, want, m, NoFailures(), k); r.Ok? && r.value != Wanted(g, last, want)
    decreases want
  {
    hide *;
    SomethingWanted(g, last, want, m);
    ListingUnfold(g, last, want, m, NoFailures(), k);
    var e := Emitted(g, last, want, m);
    if e != [] {
      var next := Some(e[|e| - 1]);
      PageReaches(g, last, want, m, m);
      ShortUnlessReaches(g, next, want - |e|, m, k + 1);
      var more := Listing(g, next, want - |e|, m, NoFailures(), k + 1);
      PrependedIsOk(e, more);
      SameTail(e, more.value, Wanted(g, next, want - |e|));
    }
  }

  lemma SomethingWanted(g: Registry, last: Option<Id>, want: nat, m: nat)
    requires m > 0 && !Reaches(g, Rest(g, last), Room(g, last, m), m, want)
    ensures want > 0 && Wanted(g, last, want) != []
    ensures forall k :: Shrunk(m, NoFailures()(k)) == Some(m)
  {}

  lemma SameTail(a: seq<Id>, b: seq<Id>, c: seq<Id>)
    ensures a + b == a + c <==> b == c
  {
    assert b == (a + b)[|a|..] && c == (a + c)[|a|..];
  }

  // ----- failures that drive the page size down

  function Halvings(size: nat): nat
    decreases size
  {
    if size <= MIN_PAGE_SIZE then 0 else 1 + Halvings(NextSize(size))
  }

  lemma {:induction false} HalvedToSmallest(size: nat)
    requires size > 0
    ensures Shrunk(size, Halvings(size)) == Some(SmallestPage(size))
    decreases size
  {
    if size > MIN_PAGE_SIZE { HalvedToSmallest(NextSize(size)); }
  }

  /** The first request fails until the page is smallest; after that none does. */
  function Stubborn(size: nat): nat -> nat { k => if k == 0 then Halvings(size) else 0 }

  lemma {:induction false} LaterFailuresAgree(g: Registry, last: Option<Id>, want: nat, size: nat, m: nat, k: nat)
    requires k > 0
    ensures Listing(g, last, want, m, Stubborn(size), k) == Listing(g, last, want, m, NoFailures(), k)
    decreases want
  {
    hide Emitted;
    var e := Emitted(g, last, want, m);
    if want > 0 && e != [] { LaterFailuresAgree(g, Some(e[|e| - 1]), want - |e|, size, m, k + 1); }
  }

  lemma StubbornListing(g: Registry, last: Option<Id>, want: nat, size: nat)
    requires size > 0
    ensures Listing(g, last, want, size, Stubborn(size), 0) == Listing(g, last, want, SmallestPage(size), NoFailures(), 0)
  {
    hide Emitted;
    var m := SmallestPage(size);
    HalvedToSmallest(size);
    if want > 0 {
      var e := Emitted(g, last, want, m);
      assert Shrunk(size, Stubborn(size)(0)) == Some(m) && Shrunk(m, NoFailures()(0)) == Some(m);
      if e != [] { LaterFailuresAgree(g, Some(e[|e| - 1]), want - |e|, size, m, 1); }
    }
  }

  ghost predicate AlwaysComplete(g: Registry, start: Option<Id>, want: nat, size: nat) {
    forall failures :: Listing(g, start, want, size, failures, 0).Ok? ==>
      Listing(g, start, want, size, failures, 0).value == Wanted(g, start, want)
  }

  lemma CompleteIffReaches(g: Registry, start: Option<Id>, want: nat, size: nat)
    requires Sorted(g.ids) && size > 0
    ensures var m := SmallestPage(size);
            AlwaysComplete(g, start, want, size) <==> Reaches(g, Rest(g, start), Room(g, start, m), m, want)
  {
    var m := SmallestPage(size);
    assert m <= size;
    hide Listing, Wanted, Reaches, Rest, Room, SmallestPage;
    if Reaches(g, Rest(g, start), Room(g, start, m), m, want) {
      forall failures | Listing(g, start, want, size, failures, 0).Ok?
        ensures Listing(g, start, want, size, failures, 0).value == Wanted(g, start, want)
      {
        CompleteIfReaches(g, start, want, size, failures, 0, m);
      }
    } else {
      ShortUnlessReaches(g, start, want, m, 0);
      StubbornListing(g, start, want, size);
    }
  }

  /** The ids from `i` up to `j` are hidden. */
  predicate HiddenRun(g: Registry, q: seq<Id>, i: nat, j: nat) { j <= |q| && forall k :: i <= k < j ==> q[k] in g.hidden }

  /** The wanted id at `j` stands behind so many hidden ones that no page reaches it: `room`
      of them at the start, or one fewer than a page holds anywhere else. */
  ghost predicate Blocked(g: Registry, q: seq<Id>, room: nat, m: nat, want: nat, j: nat) {
    && j < |q| && q[j] !in g.hidden && |Visible(g, q[..j])| < want
    && exists i: nat :: i <= j && HiddenRun(g, q, i, j) && j - i >= if i == 0 then room else m - 1
  }

  lemma BlockedBehind(g: Registry, q: seq<Id>, room: nat, m: nat, want: nat, j: nat)
    requires q != [] && 0 < room <= m && want > 0 && j > 0
    ensures q[0] in g.hidden ==> (Blocked(g, q, room, m, want, j) <==> Blocked(g, q[1..], room - 1, m, want, j - 1))
    ensures q[0] !in g.hidden ==> (Blocked(g, q, room, m, want, j) <==> Blocked(g, q[1..], m - 1, m, want - 1, j - 1))
  {
    if j < |q| {
      var r := q[1..];
      VisibleCons(g, q, j);
      hide Visible;
      if q[0] in g.hidden { RunFromStart(g, q, j); }
      if Blocked(g, q, room, m, want, j) {
        var i: nat :| i <= j && HiddenRun(g, q, i, j) && j - i >= if i == 0 then room else m - 1;
        if i > 0 { RunBehind(g, q, i - 1, j); }
        assert HiddenRun(g, r, if i == 0 then 0 else i - 1, j - 1);
      }
      var next := if q[0] in g.hidden then room - 1 else m - 1;
      var left := if q[0] in g.hidden then want else want - 1;
      if Blocked(g, r, next, m, left, j - 1) {
        var k: nat :| k <= j - 1 && HiddenRun(g, r, k, j - 1) && j - 1 - k >= if k == 0 then next else m - 1;
        RunBehind(g, q, k, j);
        assert HiddenRun(g, q, if k == 0 && q[0] in g.hidden then 0 else k + 1, j);
      }
    }
  }

  lemma RunBehind(g: Registry, q: seq<Id>, i: nat, j: nat)
    requires i < j <= |q|
    ensures HiddenRun(g, q, i + 1, j) <==> HiddenRun(g, q[1..], i, j - 1)
  {
    if HiddenRun(g, q, i + 1, j) {
      forall k | i <= k < j - 1 ensures q[1..][k] in g.hidden { assert q[k + 1] in g.hidden; }
    }
    if HiddenRun(g, q[1..], i, j - 1) {
      forall k | i + 1 <= k < j ensures q[k] in g.hidden { assert q[1..][k - 1] in g.hidden; }
    }
  }

  lemma RunFromStart(g: Registry, q: seq<Id>, j: nat)
    requires 0 < j <= |q| && q[0] in g.hidden
    ensures HiddenRun(g, q, 0, j) <==> HiddenRun(g, q[1..], 0, j - 1)
  {
    RunBehind(g, q, 0, j);
    assert HiddenRun(g, q, 0, j) <==> HiddenRun(g, q, 1, j);
  }

  lemma {:induction false} FirstVisibleBlocked(g: Registry, q: seq<Id>, m: nat, want: nat) returns (j: nat)
    requires m > 0 && want > 0 && Visible(g, q) != []
    ensures Blocked(g, q, 0, m, want, j)
  {
    j := FirstVisible(g, q);
    assert HiddenRun(g, q, 0, j);
  }

  lemma {:induction false} FirstVisible(g: Registry, q: seq<Id>) returns (j: nat)
    requires Visible(g, q) != []
    ensures j < |q| && q[j] !in g.hidden && HiddenRun(g, q, 0, j) && Visible(g, q[..j]) == []
  {
    if q[0] !in g.hidden {
      j := 0;
    } else {
      var k := FirstVisible(g, q[1..]);
      j := k + 1;
      RunFromStart(g, q, j);
      VisibleCons(g, q, j);
    }
  }

  /** The listing gets through exactly when no wanted id is blocked. */
  lemma {:induction false} ReachesIffUnblocked(g: Registry, q: seq<Id>, room: nat, m: nat, want: nat)
    requires 0 < m && room <= m
    ensures Reaches(g, q, room, m, want) <==> forall j: nat :: !Blocked(g, q, room, m, want, j)
    decreases |q|
  {
    if want > 0 && Visible(g, q) != [] {
      if room == 0 {
        var j := FirstVisibleBlocked(g, q, m, want);
      } else {
        var next := if q[0] in g.hidden then room - 1 else m - 1;
        var left := if q[0] in g.hidden then want else want - 1;
        ReachesIffUnblocked(g, q[1..], next, m, left);
        assert Reaches(g, q, room, m, want) <==> Reaches(g, q[1..], next, m, left);
        hide Reaches, Visible;
        FirstUnblocked(g, q, room, m, want);
        forall j: nat | j > 0 ensures Blocked(g, q, room, m, want, j) <==> Blocked(g, q[1..], next, m, left, j - 1) {
          BlockedBehind(g, q, room, m, want, j);
        }
        hide Blocked;
        if k: nat :| Blocked(g, q[1..], next, m, left, k) { assert Blocked(g, q, room, m, want, k + 1); }
      }
    } else {
      NoneBlocked(g, q, room, m, want);
    }
  }

  /** For every way requests may fail, a successful listing is the first wanted ids after the
      start key exactly when no wanted id stands behind a page full of hidden ones, at the
      smallest page size. */
  lemma CompleteIff(g: Registry, start: Option<Id>, want: nat, size: nat)
    requires Sorted(g.ids) && size > 0
    ensures var m := SmallestPage(size);
            AlwaysComplete(g, start, want, size) <==> forall j: nat :: !Blocked(g, Rest(g, start), Room(g, start, m), m, want, j)
  {
    var m := SmallestPage(size);
    assert Room(g, start, m) <= m;
    hide AlwaysComplete, Blocked, Reaches, Room, SmallestPage, Rest;
    CompleteIffReaches(g, start, want, size);
    ReachesIffUnblocked(g, Rest(g, start), Room(g, start, m), m, want);
  }

  lemma FirstUnblocked(g: Registry, q: seq<Id>, room: nat, m: nat, want: nat)
    requires room > 0
    ensures !Blocked(g, q, room, m, want, 0)
  {}

  lemma NoneBlocked(g: Registry, q: seq<Id>, room: nat, m: nat, want: nat)
    requires want == 0 || Visible(g, q) == []
    ensures forall j: nat :: !Blocked(g, q, room, m, want, j)
  {
    forall j: nat | j < |q| && q[j] !in g.hidden && want > 0 ensures false {
      LastVisible(g, q, j);
    }
  }

  /** Some id among the `n` from `i` on is visible. */
  ghost predicate Shows(g: Registry, q: seq<Id>, i: nat, n: nat) { i + n <= |q| && Visible(g, q[i..i + n]) != [] }

  ghost predicate Dense(g: Registry, q: seq<Id>, n: nat) { forall i: nat :: i + n <= |q| ==> Shows(g, q, i, n) }

  lemma DenseTail(g: Registry, q: seq<Id>, n: nat)
    requires Dense(g, q, n) && q != []
    ensures Dense(g, q[1..], n)
  {
    forall i: nat | i + n <= |q[1..]| ensures Shows(g, q[1..], i, n) {
      assert Shows(g, q, i + 1, n);
      assert q[1..][i..i + n] == q[i + 1..i + 1 + n];
    }
  }

  /** Where every stretch of ids one shorter than the smallest page shows a visible one, no
      listing is cut short. */
  lemma {:induction false} ReachesIfGapsShort(g: Registry, q: seq<Id>, room: nat, m: nat, want: nat)
    requires m > 1 && (Visible(g, q) != [] ==> Visible(g, First(q, room)) != [])
    requires Dense(g, q, m - 1)
    ensures Reaches(g, q, room, m, want)
    decreases |q|
  {
    if want > 0 && Visible(g, q) != [] {
      DenseTail(g, q, m - 1);
      if q[0] in g.hidden {
        if room > 0 && |q| > room { assert First(q, room)[1..] == First(q[1..], room - 1); }
        ReachesIfGapsShort(g, q[1..], room - 1, m, want);
      } else {
        FirstShows(g, q[1..], m - 1);
        ReachesIfGapsShort(g, q[1..], m - 1, m, want - 1);
      }
    }
  }

  lemma FirstShows(g: Registry, q: seq<Id>, n: nat)
    requires n <= |q| ==> Shows(g, q, 0, n)
    ensures Visible(g, q) != [] ==> Visible(g, First(q, n)) != []
  {
    if n <= |q| { assert First(q, n) == q[0..0 + n]; }
  }

  /** Without hidden ids two rows a page are enough. */
  lemma CompleteWithoutHidden(g: Registry, start: Option<Id>, want: nat, size: nat)
    requires Sorted(g.ids) && g.hidden == {} && size >= 2
    ensures AlwaysComplete(g, start, want, size)
  {
    var m, q := SmallestPage(size), Rest(g, start);
    FirstShows(g, q, Room(g, start, m));
    ReachesIfGapsShort(g, q, Room(g, start, m), m, want);
    hide *;
    CompleteIffReaches(g, start, want, size);
  }

  /** A page of one row is spent on the last id itself, so the listing ends after one id; a
      page size of zero asks for such pages too. */
  lemma OneRowPagesStop(g: Registry, want: nat, pageSize: nat)
    requires Sorted(g.ids) && g.hidden == {} && |g.ids| >= 2 && want >= 2 && pageSize <= 1
    ensures Listing(g, None, want, StartSize(pageSize), NoFailures(), 0) == Ok([g.ids[0]])
    ensures !AlwaysComplete(g, None, want, StartSize(pageSize))
  {
    var first := g.ids[0];
    assert First(g.ids, 1) == [first] && Visible(g, [first]) == [first];
    assert Emitted(g, None, want, 1) == [first];
    assert Emitted(g, Some(first), want - 1, 1) == [] by { assert First(Rest(g, Some(first)), 0) == []; }
    assert Listing(g, Some(first), want - 1, 1, NoFailures(), 1) == Ok([]);
    assert [first] + [] == [first];
    assert |Wanted(g, None, want)| >= 2 by {
      assert Visible(g, g.ids) == [first] + ([g.ids[1]] + Visible(g, g.ids[1..][1..]));
    }
  }

  // ----- the limit

  /** What is wanted are the visible ids behind the start key: as many as the limit says, or
      all of them when it is zero. */
  lemma LimitDecides(g: Registry, start: Option<Id>, limit: nat)
    requires Sorted(g.ids) && |g.ids| <= USIZE_MAX
    ensures limit == 0 ==> Wanted(g, start, Want(limit)) == Visible(g, Rest(g, start))
    ensures limit > 0 ==> |Wanted(g, start, Want(limit))| <= limit && Wanted(g, start, Want(limit)) <= Visible(g, Rest(g, start))
    ensures limit > 0 && |Visible(g, Rest(g, start))| >= limit ==> |Wanted(g, start, Want(limit))| == limit
    ensures forall x :: x in Visible(g, Rest(g, start)) <==> x in g.ids && x !in g.hidden && (start.Some? ==> x > start.value)
    ensures Sorted(Visible(g, Rest(g, start)))
  {
    if start.Some? { FromFacts(g.ids, start.value + 1); }
    VisibleFacts(g, Rest(g, start));
    RestSize(g.ids, if start.Some? then start.value + 1 else 0);
    hide Visible;
  }

  lemma {:induction false} RestSize(q: seq<Id>, key: Id)
    ensures |From(q, key)| <= |q|
  {
    if q != [] && q[0] < key { RestSize(q[1..], key); }
  }

  lemma {:induction false} VisibleFacts(g: Registry, q: seq<Id>)
    requires Sorted(q)
    ensures forall x :: x in Visible(g, q) <==> x in q && x !in g.hidden
    ensures Sorted(Visible(g, q)) && |Visible(g, q)| <= |q|
  {
    if q != [] {
      VisibleFacts(g, q[1..]);
      assert q == [q[0]] + q[1..];
      forall x | x in Visible(g, q[1..]) ensures q[0] < x {
        var i :| 0 <= i < |q[1..]| && q[1..][i] == x;
        assert x == q[i + 1];
      }
      SortedCons(q[0], Visible(g, q[1..]));
    }
  }

  lemma SortedCons(x: Id, q: seq<Id>)
    requires Sorted(q) && forall y :: y in q ==> x < y
    ensures Sorted([x] + q)
  {
    forall i, j | 0 <= i < j < |[x] + q| ensures ([x] + q)[i] < ([x] + q)[j] {
      if i == 0 { assert q[j - 1] in q; }
    }
  }

  // ----- how pages shrink, and when a listing fails

  function Halved(size: nat, times: nat): nat { if times == 0 then size else Halved(size / 2, times - 1) }

  lemma {:induction false} HalvedSmall(size: nat, times: nat)
    ensures Halved(size, times) <= size
  {
    if times > 0 { HalvedSmall(size / 2, times - 1); }
  }

  /** Each failed request halves the page, down to ten rows. A failure at ten rows or fewer
      ends the listing. */
  lemma {:induction false} ShrunkIff(size: nat, failures: nat)
    requires failures > 0
    ensures Shrunk(size, failures).Some? <==> Halved(size, failures - 1) > 10
    ensures Shrunk(size, failures).Some? ==>
      Shrunk(size, failures).value == if Halved(size, failures) > 10 then Halved(size, failures) else 10
    decreases failures
  {
    HalvedSmall(size, failures - 1);
    if failures > 1 && size > 10 {
      HalvedSmall(size / 2, failures - 2);
      HalvedSmall(size / 2, failures - 1);
      ShrunkIff(NextSize(size), failures - 1);
      HalvedSmall(10, failures - 2);
      HalvedSmall(10, failures - 1);
    }
  }

  /** How many requests have failed by the time `n` more pages are answered. */
  function Failed(failures: nat -> nat, k: nat, n: nat): nat
    decreases n
  {
    if n == 0 then 0 else failures(k) + Failed(failures, k + 1, n - 1)
  }

  ghost predicate Few(failures: nat -> nat, k: nat, budget: nat) { forall n: nat :: Failed(failures, k, n) <= budget }

  lemma FewLeft(failures: nat -> nat, k: nat, budget: nat)
    requires Few(failures, k, budget)
    ensures failures(k) <= budget && Few(failures, k + 1, budget - failures(k))
  {
    var next := k + 1;
    assert Failed(failures, k, 1) == failures(k) + Failed(failures, next, 0);
    forall n: nat ensures Failed(failures, next, n) <= budget - failures(k) {
      assert Failed(failures, k, n + 1) == failures(k) + Failed(failures, next, n);
    }
  }

  lemma {:induction false} ShrunkLeaves(size: nat, failures: nat)
    requires failures <= Halvings(size)
    ensures Shrunk(size, failures).Some? && Halvings(Shrunk(size, failures).value) == Halvings(size) - failures
    decreases failures
  {
    if failures > 0 { ShrunkLeaves(NextSize(size), failures - 1); }
  }

  /** A listing whose requests together fail no more often than its page can be halved
      succeeds. */
  lemma {:induction false} FewFailuresSucceed(g: Registry, last: Option<Id>, want: nat, size: nat, failures: nat -> nat, k: nat)
    requires Few(failures, k, Halvings(size))
    ensures Listing(g, last, want, size, failures, k).Ok?
    decreases want
  {
    if want > 0 {
      FewLeft(failures, k, Halvings(size));
      ShrunkLeaves(size, failures(k));
      var shrunk := Shrunk(size, failures(k)).value;
      var e := Emitted(g, last, want, shrunk);
      if e != [] {
        hide Emitted;
        FewFailuresSucceed(g, Some(e[|e| - 1]), want - |e|, shrunk, failures, k + 1);
      }
    }
  }

  /** And when the first page fails more often, the listing fails. */
  lemma ManyFailuresFail(g: Registry, last: Option<Id>, want: nat, size: nat, failures: nat -> nat, k: nat)
    requires want > 0 && failures(k) > Halvings(size)
    ensures Listing(g, last, want, size, failures, k) == Err
  {
    ShrunkExceeded(size, failures(k));
  }

  lemma {:induction false} ShrunkExceeded(size: nat, failures: nat)
    requires failures > Halvings(size)
    ensures Shrunk(size, failures) == None
    decreases failures
  {
    if size > MIN_PAGE_SIZE { ShrunkExceeded(NextSize(size), failures - 1); }
  }
}
