/** When what a prune leaves behind fits the cap, measured in true sizes: the counter that
    decides how much is evicted saturates. */
module StagingFit {
  import opened Naturals
  import opened Sequences
  import opened Sorting
  import opened StagingCache

  // ----- true sizes

  ghost function SizeOf(entries: map<nat, Entry>, paths: set<nat>): nat
    requires paths <= entries.Keys
  {
    if paths == {} then 0
    else
      var p :| p in paths;
      Size(entries[p].tree) + SizeOf(entries, paths - {p})
  }

  lemma {:induction false} SizeOfWithout(entries: map<nat, Entry>, paths: set<nat>, p: nat)
    requires paths <= entries.Keys && p in paths
    ensures SizeOf(entries, paths) == Size(entries[p].tree) + SizeOf(entries, paths - {p})
  {
    hide Size;
    var x :| x in paths && SizeOf(entries, paths) == Size(entries[x].tree) + SizeOf(entries, paths - {x});
    if x != p {
      SizeOfWithout(entries, paths - {x}, p);
      SizeOfWithout(entries, paths - {p}, x);
      assert paths - {x} - {p} == paths - {p} - {x};
    }
  }

  lemma {:induction false} SizeOfUnion(entries: map<nat, Entry>, a: set<nat>, b: set<nat>)
    requires a + b <= entries.Keys && a !! b
    ensures SizeOf(entries, a + b) == SizeOf(entries, a) + SizeOf(entries, b)
  {
    hide Size, SizeOf;
    if a == {} {
      assert a + b == b;
      NoSize(entries);
    } else {
      var p :| p in a;
      SizeOfWithout(entries, a, p);
      SizeOfWithout(entries, a + b, p);
      SizeOfUnion(entries, a - {p}, b);
      assert a + b - {p} == (a - {p}) + b;
    }
  }

  lemma NoSize(entries: map<nat, Entry>)
    ensures SizeOf(entries, {}) == 0
  {}

  lemma {:induction false} SizeOfSame(entries: map<nat, Entry>, others: map<nat, Entry>, paths: set<nat>)
    requires paths <= entries.Keys && paths <= others.Keys && forall p :: p in paths ==> entries[p] == others[p]
    ensures SizeOf(entries, paths) == SizeOf(others, paths)
  {
    hide Size, SizeOf;
    if paths == {} {
      NoSize(entries);
      NoSize(others);
    } else {
      var p :| p in paths;
      SizeOfWithout(entries, paths, p);
      SizeOfWithout(others, paths, p);
      SizeOfSame(entries, others, paths - {p});
    }
  }

  // ----- the oldest directories

  /** The unexpired directories, oldest first. */
  ghost predicate ByAgeOf(before: map<nat, Entry>, l: Limits, q: seq<Kept>) {
    Aged(before, l, q) && OldestFirst(q) && Paths(q) == Current(before, l)
  }

  ghost function Oldest(before: map<nat, Entry>, q: seq<Kept>, n: nat): nat
    requires n <= |q| && Paths(q) <= before.Keys
  {
    PrefixPaths(q, n);
    SizeOf(before, Paths(q[..n]))
  }

  lemma PrefixPaths(q: seq<Kept>, n: nat)
    requires n <= |q|
    ensures Paths(q[..n]) <= Paths(q)
  {
    forall k | k in q[..n] ensures k in q {}
  }

  lemma OldestNext(before: map<nat, Entry>, l: Limits, q: seq<Kept>, n: nat)
    requires ByAgeOf(before, l, q) && n < |q|
    ensures q[n].path in before && q[n].bytes == Bytes(before[q[n].path].tree)
    ensures Oldest(before, q, n + 1) == Oldest(before, q, n) + Size(before[q[n].path].tree)
  {
    hide Size, Bytes, IsExpired, SizeOf;
    assert q[n] in q;
    assert q[..n + 1] == q[..n] + [q[n]];
    assert Paths(q[..n + 1]) == Paths(q[..n]) + {q[n].path};
    forall k | k in q[..n] ensures k.path != q[n].path {}
    PrefixPaths(q, n + 1);
    SizeOfWithout(before, Paths(q[..n + 1]), q[n].path);
    assert Paths(q[..n + 1]) - {q[n].path} == Paths(q[..n]);
  }

  lemma {:induction false} OldestGrows(before: map<nat, Entry>, l: Limits, q: seq<Kept>, i: nat, j: nat)
    requires ByAgeOf(before, l, q) && i <= j <= |q|
    ensures Oldest(before, q, i) <= Oldest(before, q, j)
    decreases j
  {
    hide ByAgeOf, Oldest;
    if i < j {
      OldestGrows(before, l, q, i, j - 1);
      OldestNext(before, l, q, j - 1);
    }
  }

  /** The counter's sums are the true ones, saturated. */
  lemma {:induction false} SumSaturates(before: map<nat, Entry>, l: Limits, q: seq<Kept>, n: nat)
    requires ByAgeOf(before, l, q) && n <= |q|
    ensures Min(Sum(q[..n]), U64_MAX) == Min(Oldest(before, q, n), U64_MAX)
  {
    if n == 0 {
      assert q[..0] == [] && Paths([]) == {};
    } else {
      SumSaturates(before, l, q, n - 1);
      OldestNext(before, l, q, n - 1);
      SumNext(q, n - 1);
      hide Sum, Oldest, ByAgeOf, Size;
    }
  }

  ghost function Total(before: map<nat, Entry>, l: Limits): nat { SizeOf(before, Current(before, l)) }

  lemma OldestTotal(before: map<nat, Entry>, l: Limits, q: seq<Kept>)
    requires ByAgeOf(before, l, q)
    ensures Oldest(before, q, |q|) == Total(before, l)
  {
    assert q[..|q|] == q;
  }

  /** The counter is within the cap once the evicted directories hold what the saturated
      total has above it. */
  lemma RemainingFits(before: map<nat, Entry>, l: Limits, q: seq<Kept>, n: nat)
    requires ByAgeOf(before, l, q) && n <= |q|
    ensures Remaining(q, n) <= l.maxBytes <==> Min(Total(before, l), U64_MAX) <= Oldest(before, q, n) + l.maxBytes
    ensures Remaining(q, n) == SatSub(Min(Total(before, l), U64_MAX), Min(Oldest(before, q, n), U64_MAX))
  {
    hide Sum, Oldest, ByAgeOf, Total;
    SumSaturates(before, l, q, n);
    SumSaturates(before, l, q, |q|);
    OldestTotal(before, l, q);
    assert q[..|q|] == q;
  }

  // ----- what a prune leaves

  ghost function Left(after: map<nat, Entry>): nat { SizeOf(after, DirsOf(after)) }

  lemma Survivors(before: map<nat, Entry>, after: map<nat, Entry>, l: Limits, listing: seq<nat>, q: seq<Kept>, evicted: nat, stats: Stats)
    requires Pruned(before, after, l, listing, q, evicted, stats)
    requires Distinct(listing) && forall p :: p in listing <==> p in before
    ensures ByAgeOf(before, l, q) && Oldest(before, q, evicted) + Left(after) == Total(before, l)
  {
    hide *;
    PrunedFacts(before, after, l, listing, q, evicted, stats);
    PruneOrder(before, l, listing, q);
    SurvivorsCounted(before, after, l, listing, q, evicted, stats);
    SizesSplit(before, after, l, q, evicted);
  }

  lemma PrunedFacts(before: map<nat, Entry>, after: map<nat, Entry>, l: Limits, listing: seq<nat>, q: seq<Kept>, evicted: nat, stats: Stats)
    requires Pruned(before, after, l, listing, q, evicted, stats)
    ensures evicted <= |q| && q == Sort(ByAge, KeptOf(before, l, listing))
  {}

  lemma SizesSplit(before: map<nat, Entry>, after: map<nat, Entry>, l: Limits, q: seq<Kept>, n: nat)
    requires Aged(before, l, q) && OldestFirst(q) && Paths(q) == Current(before, l) && n <= |q|
    requires DirsOf(after) == Current(before, l) - Paths(q[..n]) && forall p :: p in after ==> p in before && after[p] == before[p]
    ensures ByAgeOf(before, l, q) && Oldest(before, q, n) + Left(after) == Total(before, l)
  {
    hide Aged, OldestFirst, IsExpired, SizeOf, Paths;
    PrefixPaths(q, n);
    SizeOfSame(before, after, DirsOf(after));
    SizeOfUnion(before, Paths(q[..n]), DirsOf(after));
    assert Paths(q[..n]) + DirsOf(after) == Current(before, l);
  }

  /** So much of the oldest is enough for the counter, and not enough. */
  predicate TooSoon(l: Limits, total: nat, size: nat) { U64_MAX <= size + l.maxBytes < total }

  /** The survivors fit the cap exactly when no number of oldest directories holds enough for
      the saturated counter and too little for the true total. */
  lemma FitsIff(before: map<nat, Entry>, after: map<nat, Entry>, l: Limits, listing: seq<nat>, q: seq<Kept>, evicted: nat, stats: Stats)
    requires Pruned(before, after, l, listing, q, evicted, stats) && l.maxBytes > 0
    requires Distinct(listing) && forall p :: p in listing <==> p in before
    ensures ByAgeOf(before, l, q)
    ensures Left(after) <= l.maxBytes <==> forall n :: 0 <= n <= |q| ==> !TooSoon(l, Total(before, l), Oldest(before, q, n))
  {
    Survivors(before, after, l, listing, q, evicted, stats);
    RemainingFits(before, l, q, evicted);
    EnoughIff(before, l, q, evicted);
  }

  lemma EnoughIff(before: map<nat, Entry>, l: Limits, q: seq<Kept>, evicted: nat)
    requires ByAgeOf(before, l, q) && evicted <= |q| && Remaining(q, evicted) <= l.maxBytes
    requires forall j :: 0 <= j < evicted ==> Remaining(q, j) > l.maxBytes
    ensures Total(before, l) <= Oldest(before, q, evicted) + l.maxBytes
      <==> forall n :: 0 <= n <= |q| ==> !TooSoon(l, Total(before, l), Oldest(before, q, n))
  {
    hide Aged, OldestFirst, Oldest, Total, Remaining;
    RemainingFits(before, l, q, evicted);
    if Total(before, l) <= Oldest(before, q, evicted) + l.maxBytes {
      forall n | 0 <= n <= |q| ensures !TooSoon(l, Total(before, l), Oldest(before, q, n)) {
        if n < evicted { RemainingFits(before, l, q, n); } else { OldestGrows(before, l, q, evicted, n); }
      }
    } else {
      assert TooSoon(l, Total(before, l), Oldest(before, q, evicted));
    }
  }

  /** The reported bytes are the survivors' true size exactly when the total did not overflow,
      or when eviction cannot stop before everything of any size is gone. */
  lemma BytesExactIff(before: map<nat, Entry>, after: map<nat, Entry>, l: Limits, listing: seq<nat>, q: seq<Kept>, evicted: nat, stats: Stats)
    requires Pruned(before, after, l, listing, q, evicted, stats)
    requires Distinct(listing) && forall p :: p in listing <==> p in before
    ensures ByAgeOf(before, l, q)
    ensures stats.bytes == Left(after) <==>
      || Total(before, l) <= U64_MAX
      || (l.maxBytes > 0 && forall n :: 0 <= n <= |q| && U64_MAX <= Oldest(before, q, n) + l.maxBytes ==> Oldest(before, q, n) == Total(before, l))
  {
    Survivors(before, after, l, listing, q, evicted, stats);
    hide ByAgeOf, Oldest, Total, Remaining, Left, Sort;
    OldestTotal(before, l, q);
    RemainingFits(before, l, q, evicted);
    forall n | 0 <= n <= |q| && evicted <= n
      ensures Oldest(before, q, evicted) <= Oldest(before, q, n) <= Oldest(before, q, |q|)
    {
      OldestGrows(before, l, q, evicted, n);
      OldestGrows(before, l, q, n, |q|);
    }
    forall n | 0 <= n < evicted ensures Min(Total(before, l), U64_MAX) > Oldest(before, q, n) + l.maxBytes {
      RemainingFits(before, l, q, n);
    }
    if evicted == 0 { NothingOldest(before, l, q); }
  }

  lemma NothingOldest(before: map<nat, Entry>, l: Limits, q: seq<Kept>)
    requires ByAgeOf(before, l, q)
    ensures Oldest(before, q, 0) == 0
  {
    assert q[..0] == [] && Paths([]) == {};
  }

  /** Without overflow the survivors fit the cap, and one eviction fewer would not do. */
  lemma ShortestPrefixEvicted(before: map<nat, Entry>, after: map<nat, Entry>, l: Limits, listing: seq<nat>, q: seq<Kept>, evicted: nat, stats: Stats)
    requires Pruned(before, after, l, listing, q, evicted, stats) && l.maxBytes > 0
    requires Distinct(listing) && forall p :: p in listing <==> p in before
    requires Total(before, l) <= U64_MAX
    ensures ByAgeOf(before, l, q) && Left(after) == Total(before, l) - Oldest(before, q, evicted) <= l.maxBytes
    ensures forall j :: 0 <= j < evicted ==> Total(before, l) - Oldest(before, q, j) > l.maxBytes
  {
    Survivors(before, after, l, listing, q, evicted, stats);
    hide ByAgeOf, Oldest, Total, Remaining, Left, Sort;
    RemainingFits(before, l, q, evicted);
    forall j | 0 <= j < evicted ensures Total(before, l) - Oldest(before, q, j) > l.maxBytes {
      RemainingFits(before, l, q, j);
    }
  }

  // ----- over every order of the listing

  /** Nothing outside the set is older than anything inside. */
  ghost predicate OldestSet(before: map<nat, Entry>, l: Limits, s: set<nat>) {
    && s <= Current(before, l)
    && forall x, y :: x in s && y in Current(before, l) - s ==> before[x].modified <= before[y].modified
  }

  ghost predicate AlwaysFits(before: map<nat, Entry>, l: Limits) {
    forall after, listing, q, evicted, stats :: Prunes(before, after, l, listing, q, evicted, stats) ==> Left(after) <= l.maxBytes
  }

  ghost predicate Prunes(before: map<nat, Entry>, after: map<nat, Entry>, l: Limits, listing: seq<nat>, q: seq<Kept>, evicted: nat, stats: Stats) {
    && Distinct(listing) && (forall p :: p in listing <==> p in before)
    && Pruned(before, after, l, listing, q, evicted, stats)
  }

  lemma PrefixIsOldest(before: map<nat, Entry>, l: Limits, q: seq<Kept>, n: nat)
    requires ByAgeOf(before, l, q) && n <= |q|
    ensures OldestSet(before, l, Paths(q[..n])) && SizeOf(before, Paths(q[..n])) == Oldest(before, q, n)
  {
    PrefixPaths(q, n);
    PathsSplit(q, n);
    var s := Paths(q[..n]);
    hide SizeOf;
    forall x, y | x in s && y in Current(before, l) - s ensures before[x].modified <= before[y].modified {
      assert y in Paths(q[n..]);
      hide Paths;
      OlderThan(before, l, q, n, x, y);
    }
  }

  ghost function ListOf(s: set<nat>): seq<nat> {
    if s == {} then []
    else
      var x :| x in s;
      [x] + ListOf(s - {x})
  }

  lemma {:induction false} ListOfFacts(s: set<nat>)
    ensures Distinct(ListOf(s)) && forall x :: x in ListOf(s) <==> x in s
  {
    if s != {} {
      var x :| x in s && ListOf(s) == [x] + ListOf(s - {x});
      ListOfFacts(s - {x});
    }
  }

  lemma {:induction false} KeptAppend(before: map<nat, Entry>, l: Limits, a: seq<nat>, b: seq<nat>)
    ensures KeptOf(before, l, a + b) == KeptOf(before, l, a) + KeptOf(before, l, b)
    decreases |b|
  {
    hide IsExpired, Bytes;
    if b == [] {
      assert a + b == a;
    } else {
      assert (a + b)[..|a + b| - 1] == a + b[..|b| - 1];
      KeptAppend(before, l, a, b[..|b| - 1]);
    }
  }

  /** What is kept of a listing of some of the paths. */
  lemma ListedKept(before: map<nat, Entry>, l: Limits, s: set<nat>)
    ensures Paths(KeptOf(before, l, ListOf(s))) == s * Current(before, l)
    ensures forall k :: k in KeptOf(before, l, ListOf(s)) ==> k.path in s * Current(before, l) && k.modified == before[k.path].modified
  {
    ListOfFacts(s);
    KeptFacts(before, l, ListOf(s));
    hide IsExpired, Bytes, KeptOf, ListOf;
    forall x | x in s * Current(before, l) ensures x in Paths(KeptOf(before, l, ListOf(s))) {
      assert Kept(x, before[x].modified, Bytes(before[x].tree)) in KeptOf(before, l, ListOf(s));
    }
  }

  lemma ListingOf(before: map<nat, Entry>, s: set<nat>)
    requires s <= before.Keys
    ensures var listing := ListOf(s) + ListOf(before.Keys - s); Distinct(listing) && forall p :: p in listing <==> p in before
  {
    ListOfFacts(s);
    ListOfFacts(before.Keys - s);
    hide ListOf;
    var a, b := ListOf(s), ListOf(before.Keys - s);
    forall i, j | 0 <= i < j < |a + b| ensures (a + b)[i] != (a + b)[j] {
      assert j < |a| || (a + b)[j] in b;
      assert i >= |a| || (a + b)[i] in a;
    }
    forall p ensures p in a + b <==> p in before { assert p in a + b <==> p in a || p in b; }
  }

  /** A listing that shows an oldest set first makes it a prefix of the eviction order. */
  lemma ListedFirst(before: map<nat, Entry>, l: Limits, s: set<nat>) returns (listing: seq<nat>, n: nat)
    requires OldestSet(before, l, s)
    ensures Distinct(listing) && forall p :: p in listing <==> p in before
    ensures var q := Sort(ByAge, KeptOf(before, l, listing)); n <= |q| && Paths(q[..n]) == s
  {
    hide IsExpired, KeptOf, ListOf, Sort, Paths, Distinct, TotalOrder, SortedBy;
    var rest := before.Keys - s;
    listing := ListOf(s) + ListOf(rest);
    ListingOf(before, s);
    KeptAppend(before, l, ListOf(s), ListOf(rest));
    ListedKept(before, l, s);
    ListedKept(before, l, rest);
    var p, r := KeptOf(before, l, ListOf(s)), KeptOf(before, l, ListOf(rest));
    ByAgeIsTotal();
    SortInFront(ByAge, p, r);
    SortFacts(ByAge, p);
    PathsOfSame(Sort(ByAge, p), p);
    n := |Sort(ByAge, p)|;
    assert (Sort(ByAge, p) + Sort(ByAge, r))[..n] == Sort(ByAge, p);
    assert s * Current(before, l) == s;
  }

  lemma NothingRemains(q: seq<Kept>)
    ensures Remaining(q, |q|) == 0
  {
    assert q[..|q|] == q;
  }

  lemma {:induction false} LeastEvicted(l: Limits, q: seq<Kept>, n: nat) returns (evicted: nat)
    requires n <= |q| && forall j :: 0 <= j < n ==> Remaining(q, j) > l.maxBytes
    ensures n <= evicted <= |q| && Remaining(q, evicted) <= l.maxBytes
    ensures forall j :: 0 <= j < evicted ==> Remaining(q, j) > l.maxBytes
    decreases |q| - n
  {
    NothingRemains(q);
    hide Remaining;
    if Remaining(q, n) <= l.maxBytes {
      evicted := n;
    } else {
      evicted := LeastEvicted(l, q, n + 1);
    }
  }

  lemma PruneOf(before: map<nat, Entry>, l: Limits, listing: seq<nat>) returns (after: map<nat, Entry>, evicted: nat, stats: Stats)
    requires l.maxBytes > 0
    ensures Pruned(before, after, l, listing, Sort(ByAge, KeptOf(before, l, listing)), evicted, stats)
  {
    hide Sort, KeptOf, Remaining;
    var q := Sort(ByAge, KeptOf(before, l, listing));
    evicted := LeastEvicted(l, q, 0);
    var gone := ExpiredOf(before, l, before.Keys);
    after := before - gone - Paths(q[..evicted]);
    stats := Stats(|q| - evicted, Remaining(q, evicted), |gone| + evicted);
  }

  /** Every prune leaves what fits the cap, in whatever order the directory is listed, exactly
      when no set of oldest directories holds enough for the saturated counter and too little
      for the true total. */
  lemma AlwaysFitsIff(before: map<nat, Entry>, l: Limits)
    requires l.maxBytes > 0
    ensures AlwaysFits(before, l) <==> forall s :: OldestSet(before, l, s) ==> !TooSoon(l, Total(before, l), SizeOf(before, s))
  {
    hide Aged, OldestFirst, IsExpired, SizeOf, Total, Oldest, Left, TooSoon, Pruned, Sort, KeptOf, Paths;
    if s :| OldestSet(before, l, s) && TooSoon(l, Total(before, l), SizeOf(before, s)) {
      var listing, n := ListedFirst(before, l, s);
      var q := Sort(ByAge, KeptOf(before, l, listing));
      var after, evicted, stats := PruneOf(before, l, listing);
      FitsIff(before, after, l, listing, q, evicted, stats);
      PrefixIsOldest(before, l, q, n);
      assert Prunes(before, after, l, listing, q, evicted, stats);
    } else {
      forall after, listing, q, evicted, stats | Prunes(before, after, l, listing, q, evicted, stats)
        ensures Left(after) <= l.maxBytes
      {
        FitsIff(before, after, l, listing, q, evicted, stats);
        forall n | 0 <= n <= |q| ensures !TooSoon(l, Total(before, l), Oldest(before, q, n)) {
          PrefixIsOldest(before, l, q, n);
        }
      }
    }
  }

  // ----- an overflow

  /** An old directory of the largest countable size, and a newer one just over the cap. */
  function Overflowing(cap: u64): map<nat, Entry>
    requires cap < U64_MAX
  {
    map[0 := Entry(Dir([File(U64_MAX)]), 0), 1 := Entry(Dir([File(cap + 1)]), 1)]
  }

  /** The counter shows the largest number for the two, so that evicting the old one empties
      it; the newer one stays, although it does not fit. */
  lemma StopsTooSoon(cap: u64, after: map<nat, Entry>, l: Limits, listing: seq<nat>, q: seq<Kept>, evicted: nat, stats: Stats)
    requires 0 < cap < U64_MAX && l == Limits(0, 0, cap)
    requires Prunes(Overflowing(cap), after, l, listing, q, evicted, stats)
    ensures Left(after) > cap
  {
    var before := Overflowing(cap);
    FitsIff(before, after, l, listing, q, evicted, stats);
    OverflowingSizes(cap, l);
    OverflowingOrder(before, cap, l, q);
    assert TooSoon(l, Total(before, l), Oldest(before, q, 1));
  }

  lemma OverflowingSizes(cap: u64, l: Limits)
    requires cap < U64_MAX && l == Limits(0, 0, cap)
    ensures var before := Overflowing(cap);
      && Current(before, l) == {0, 1} && Total(before, l) == U64_MAX + cap + 1 && SizeOf(before, {0}) == U64_MAX
  {
    var before := Overflowing(cap);
    assert Current(before, l) == {0, 1};
    assert Sizes([File(U64_MAX)]) == U64_MAX && Sizes([File(cap + 1)]) == cap + 1;
    SizeOfWithout(before, {0}, 0);
    SizeOfWithout(before, {0, 1}, 1);
    assert {0, 1} - {1} == {0} && {0} - {0} == {};
  }

  lemma OverflowingOrder(before: map<nat, Entry>, cap: u64, l: Limits, q: seq<Kept>)
    requires cap < U64_MAX && l == Limits(0, 0, cap) && before == Overflowing(cap) && ByAgeOf(before, l, q)
    ensures |q| >= 1 && Paths(q[..1]) == {0} && Oldest(before, q, 1) == SizeOf(before, {0})
  {
    OverflowingSizes(cap, l);
    hide SizeOf, Size, Bytes;
    assert 0 in Paths(q);
    var i :| 0 <= i < |q| && q[i].path == 0;
    assert q[0] in q && q[i] in q;
    assert q[0].path in Paths(q);
    assert q[..1] == [q[0]];
  }
}
