/** The staging cache: expired directories go first, then the oldest until the cap holds. */
module StagingCache {
  import opened Sequences
  import opened Sorting
  import opened Naturals

  const U64_MAX := 0xFFFF_FFFF_FFFF_FFFF

  type u64 = n: nat | n <= U64_MAX

  function SatAdd(a: u64, b: u64): u64 { Min(a + b, U64_MAX) }

  function SatSub(a: nat, b: nat): nat { if a <= b then 0 else a - b }

  // ----- sizes

  /** What lies under a path. Links are not followed. */
  datatype Tree = File(bytes: u64) | Link | Dir(children: seq<Tree>)

  function Size(t: Tree): nat
    decreases t, 0
  {
    match t case File(bytes) => bytes case Link => 0 case Dir(children) => Sizes(children)
  }

  function Sizes(ts: seq<Tree>): nat
    decreases ts, 1
  {
    if ts == [] then 0 else Sizes(ts[..|ts| - 1]) + Size(ts[|ts| - 1])
  }

  /** Adding sizes with saturation reports the true size, or the largest number. */
  method StagingDirBytes(t: Tree) returns (total: u64)
    ensures total == Min(Size(t), U64_MAX)
    decreases t
  {
    match t {
      case File(bytes) => return bytes;
      case Link => return 0;
      case Dir(children) =>
        total := 0;
        for n := 0 to |children|
          invariant total == Min(Sizes(children[..n]), U64_MAX)
        {
          assert children[..n + 1][..n] == children[..n];
          var bytes := StagingDirBytes(children[n]);
          total := SatAdd(total, bytes);
        }
        assert children[..|children|] == children;
    }
  }

  // ----- what a prune keeps

  datatype Entry = Entry(tree: Tree, modified: nat)

  /** A directory the prune has looked at. */
  datatype Kept = Kept(path: nat, modified: nat, bytes: u64)

  datatype Stats = Stats(entries: nat, bytes: u64, prunedDirs: nat)

  datatype Limits = Limits(now: nat, ttl: nat, maxBytes: u64)

  /** Something modified in the future is new. */
  predicate IsExpired(l: Limits, modified: nat) { l.ttl > 0 && SatSub(l.now, modified) >= l.ttl }

  function Bytes(t: Tree): u64 { Min(Size(t), U64_MAX) }

  /** The directories of a listing that have not expired. */
  function KeptOf(entries: map<nat, Entry>, l: Limits, listing: seq<nat>): seq<Kept> {
    if listing == [] then []
    else
      var path := listing[|listing| - 1];
      KeptOf(entries, l, listing[..|listing| - 1]) +
        if path in entries && entries[path].tree.Dir? && !IsExpired(l, entries[path].modified)
        then [Kept(path, entries[path].modified, Bytes(entries[path].tree))] else []
  }

  ghost function ExpiredOf(entries: map<nat, Entry>, l: Limits, paths: set<nat>): set<nat> {
    set p | p in paths && p in entries && entries[p].tree.Dir? && IsExpired(l, entries[p].modified)
  }

  predicate ByAge(x: Kept, y: Kept) { x.modified <= y.modified }

  function Sum(q: seq<Kept>): nat { if q == [] then 0 else Sum(q[..|q| - 1]) + q[|q| - 1].bytes }

  /** What the counter shows after some evictions. */
  function Remaining(q: seq<Kept>, evicted: nat): nat
    requires evicted <= |q|
  {
    SatSub(Min(Sum(q), U64_MAX), Sum(q[..evicted]))
  }

  ghost function Paths(q: seq<Kept>): set<nat> { set k | k in q :: k.path }

  /** The expired directories are gone, and of the others the oldest, as few as bring the
      counter within the cap. */
  ghost predicate Pruned(before: map<nat, Entry>, after: map<nat, Entry>, l: Limits, listing: seq<nat>, q: seq<Kept>, evicted: nat, stats: Stats) {
    && q == Sort(ByAge, KeptOf(before, l, listing)) && evicted <= |q|
    && after == before - ExpiredOf(before, l, before.Keys) - Paths(q[..evicted])
    && (l.maxBytes == 0 ==> evicted == 0)
    && (l.maxBytes > 0 ==> Remaining(q, evicted) <= l.maxBytes && forall j :: 0 <= j < evicted ==> Remaining(q, j) > l.maxBytes)
    && stats == Stats(|q| - evicted, Remaining(q, evicted), |ExpiredOf(before, l, before.Keys)| + evicted)
  }

  lemma SumNext(q: seq<Kept>, n: nat)
    requires n < |q|
    ensures Sum(q[..n + 1]) == Sum(q[..n]) + q[n].bytes
  {
    assert q[..n + 1][..n] == q[..n];
  }

  lemma {:induction false} SumAppend(p: seq<Kept>, q: seq<Kept>)
    ensures Sum(p + q) == Sum(p) + Sum(q)
    decreases |q|
  {
    if q == [] {
      assert p + q == p;
    } else {
      SumAppend(p, q[..|q| - 1]);
      assert (p + q)[..|p + q| - 1] == p + q[..|q| - 1];
    }
  }

  lemma SumSplits(q: seq<Kept>, n: nat)
    requires n <= |q|
    ensures Sum(q) == Sum(q[..n]) + Sum(q[n..])
  {
    hide Sum;
    SumAppend(q[..n], q[n..]);
    assert q == q[..n] + q[n..];
  }

  lemma SumWithout(q: seq<Kept>, i: nat)
    requires i < |q|
    ensures Sum(q) == Sum(q[..i] + q[i + 1..]) + q[i].bytes
  {
    hide Sum;
    SumNext(q, i);
    SumSplits(q, i + 1);
    SumAppend(q[..i], q[i + 1..]);
  }

  lemma {:induction false} SumOfSame(p: seq<Kept>, q: seq<Kept>)
    requires multiset(p) == multiset(q)
    ensures Sum(p) == Sum(q)
    decreases |p|
  {
    SameMembers(p, q);
    if p == [] {
      assert q == [];
    } else {
      var last := |p| - 1;
      assert p[last] in q;
      var i :| 0 <= i < |q| && q[i] == p[last];
      assert p[..last] + p[last + 1..] == p[..last];
      Without(p, last);
      Without(q, i);
      SumWithout(q, i);
      SumOfSame(p[..last], q[..i] + q[i + 1..]);
    }
  }

  // ----- the prune

  ghost function SetOf(q: seq<nat>): set<nat> { set p | p in q }

  lemma SetOfNext(q: seq<nat>, n: nat)
    requires Distinct(q) && n < |q|
    ensures SetOf(q[..n + 1]) == SetOf(q[..n]) + {q[n]} && q[n] !in SetOf(q[..n])
  {
    assert q[..n + 1] == q[..n] + [q[n]];
  }

  /** The first loop, before entry `n` of the listing. */
  ghost predicate Expiring(before: map<nat, Entry>, l: Limits, listing: seq<nat>, n: nat,
                           after: map<nat, Entry>, retained: seq<Kept>, total: nat, pruned: nat) {
    && n <= |listing|
    && retained == KeptOf(before, l, listing[..n]) && total == Min(Sum(retained), U64_MAX)
    && var gone := ExpiredOf(before, l, SetOf(listing[..n]));
    && after == before - gone && pruned == |gone|
  }

  lemma ExpiringStart(before: map<nat, Entry>, l: Limits, listing: seq<nat>)
    ensures Expiring(before, l, listing, 0, before, [], 0, 0)
  {
    assert SetOf(listing[..0]) == {} && ExpiredOf(before, l, {}) == {};
  }

  lemma ExpiredNext(before: map<nat, Entry>, l: Limits, listing: seq<nat>, n: nat)
    requires Distinct(listing) && n < |listing| && listing[n] in before
    ensures var e, gone := before[listing[n]], ExpiredOf(before, l, SetOf(listing[..n]));
            && ExpiredOf(before, l, SetOf(listing[..n + 1])) == (if e.tree.Dir? && IsExpired(l, e.modified) then gone + {listing[n]} else gone)
            && listing[n] !in gone
  {
    SetOfNext(listing, n);
  }

  lemma KeptNext(before: map<nat, Entry>, l: Limits, listing: seq<nat>, n: nat)
    requires n < |listing| && listing[n] in before
    ensures var e := before[listing[n]];
            KeptOf(before, l, listing[..n + 1]) == KeptOf(before, l, listing[..n]) +
              (if e.tree.Dir? && !IsExpired(l, e.modified) then [Kept(listing[n], e.modified, Bytes(e.tree))] else [])
  {
    assert listing[..n + 1][..n] == listing[..n];
  }

  lemma ExpiringStep(before: map<nat, Entry>, l: Limits, listing: seq<nat>, n: nat, after: map<nat, Entry>, retained: seq<Kept>, total: nat, pruned: nat)
    requires Expiring(before, l, listing, n, after, retained, total, pruned)
    requires Distinct(listing) && n < |listing| && listing[n] in before
    ensures var path := listing[n]; var e := before[path];
            && path in after && after[path] == e
            && if !e.tree.Dir? then Expiring(before, l, listing, n + 1, after, retained, total, pruned)
               else if IsExpired(l, e.modified) then Expiring(before, l, listing, n + 1, after - {path}, retained, total, pruned + 1)
               else total <= U64_MAX && Expiring(before, l, listing, n + 1, after, retained + [Kept(path, e.modified, Bytes(e.tree))], SatAdd(total, Bytes(e.tree)), pruned)
  {
    hide KeptOf, ExpiredOf, SetOf, Sum, Distinct, IsExpired, Bytes;
    var path := listing[n];
    var e := before[path];
    ExpiredNext(before, l, listing, n);
    KeptNext(before, l, listing, n);
    var kept := Kept(path, e.modified, Bytes(e.tree));
    SumAppendOne(retained, kept);
    assert retained + [] == retained;
  }

  lemma SumAppendOne(q: seq<Kept>, k: Kept)
    ensures Sum(q + [k]) == Sum(q) + k.bytes
  {
    assert (q + [k])[..|q|] == q;
  }

  /** Each kept directory is there, has not expired and is listed once. */
  lemma {:induction false} KeptFacts(before: map<nat, Entry>, l: Limits, listing: seq<nat>)
    requires Distinct(listing)
    ensures Distinct(KeptOf(before, l, listing))
    ensures forall k :: k in KeptOf(before, l, listing) ==>
      && k.path in listing && k.path in before && before[k.path].tree.Dir? && !IsExpired(l, before[k.path].modified)
      && k == Kept(k.path, before[k.path].modified, Bytes(before[k.path].tree))
    ensures forall p :: p in listing && p in before && before[p].tree.Dir? && !IsExpired(l, before[p].modified) ==>
      Kept(p, before[p].modified, Bytes(before[p].tree)) in KeptOf(before, l, listing)
  {
    if listing != [] {
      var n := |listing| - 1;
      KeptFacts(before, l, listing[..n]);
      hide IsExpired, Bytes;
      assert listing == listing[..n] + [listing[n]];
    }
  }

  // ----- evicting the oldest

  /** What the first loop leaves, in order of age. */
  ghost predicate Aged(before: map<nat, Entry>, l: Limits, q: seq<Kept>) {
    && Distinct(q)
    && forall k :: k in q ==> k.path in before && before[k.path].tree.Dir? && !IsExpired(l, before[k.path].modified)
                              && k == Kept(k.path, before[k.path].modified, Bytes(before[k.path].tree))
  }

  lemma SortedIsAged(before: map<nat, Entry>, l: Limits, listing: seq<nat>)
    requires Distinct(listing)
    ensures var q := Sort(ByAge, KeptOf(before, l, listing)); Aged(before, l, q) && Sum(q) == Sum(KeptOf(before, l, listing))
    ensures |Sort(ByAge, KeptOf(before, l, listing))| == |KeptOf(before, l, listing)|
  {
    var kept := KeptOf(before, l, listing);
    hide IsExpired, Bytes, KeptOf, Sum;
    assert TotalOrder(ByAge);
    SortFacts(ByAge, kept);
    hide Sort, SortedBy, TotalOrder;
    KeptFacts(before, l, listing);
    SumOfSame(Sort(ByAge, kept), kept);
    SameMembers(Sort(ByAge, kept), kept);
    DistinctPermuted(kept, Sort(ByAge, kept));
  }

  ghost predicate Evicting(before: map<nat, Entry>, l: Limits, q: seq<Kept>, n: nat, after: map<nat, Entry>, total: nat) {
    && n <= |q|
    && after == before - ExpiredOf(before, l, before.Keys) - Paths(q[..n])
    && total == Remaining(q, n)
    && forall j :: 0 <= j < n ==> Remaining(q, j) > l.maxBytes
  }

  lemma EvictingStep(before: map<nat, Entry>, l: Limits, q: seq<Kept>, n: nat, after: map<nat, Entry>, total: nat)
    requires Evicting(before, l, q, n, after, total) && n < |q| && total > l.maxBytes
    ensures Evicting(before, l, q, n + 1, after - {q[n].path}, SatSub(total, q[n].bytes))
  {
    assert q[..n + 1] == q[..n] + [q[n]];
    assert Paths(q[..n + 1]) == Paths(q[..n]) + {q[n].path};
    SumNext(q, n);
    hide Sum, ExpiredOf, Paths;
  }

  /** A directory is still there exactly when it was not among those evicted. */
  lemma StillThere(before: map<nat, Entry>, l: Limits, q: seq<Kept>, n: nat, after: map<nat, Entry>, total: nat, j: nat)
    requires Aged(before, l, q) && Evicting(before, l, q, n, after, total) && j < |q|
    ensures q[j].path in after <==> j >= n
  {
    hide Bytes, Sum, Remaining;
    assert q[j] in q;
    if j < n {
      assert q[..n][j] == q[j];
      assert q[j] in q[..n];
    } else {
      forall i | 0 <= i < n ensures q[..n][i].path != q[j].path {
        assert q[i] in q && q[..n][i] == q[i];
      }
    }
  }

  class Staging {
    /** What lies directly under the staging directory. */
    var entries: map<nat, Entry>

    method CountExisting(ghost before: map<nat, Entry>, ghost l: Limits, q: seq<Kept>, ghost evicted: nat, ghost total: nat) returns (count: nat)
      requires Aged(before, l, q) && Evicting(before, l, q, evicted, entries, total)
      ensures count == |q| - evicted
    {
      count := 0;
      for j := 0 to |q|
        invariant count == if j <= evicted then 0 else j - evicted
      {
        StillThere(before, l, q, evicted, entries, total, j);
        if q[j].path in entries { count := count + 1; }
      }
    }

    /** The scan: expired directories are removed as the listing is read. */
    method Expire(l: Limits, listing: seq<nat>) returns (retained: seq<Kept>, total: u64, pruned: nat)
      requires Distinct(listing) && forall p :: p in listing ==> p in entries
      modifies this
      ensures Expiring(old(entries), l, listing, |listing|, entries, retained, total, pruned)
    {
      retained, total, pruned := [], 0, 0;
      ExpiringStart(entries, l, listing);
      for n := 0 to |listing|
        invariant Expiring(old(entries), l, listing, n, entries, retained, total, pruned)
      {
        hide Expiring;
        var path := listing[n];
        ExpiringStep(old(entries), l, listing, n, entries, retained, total, pruned);
        var e := entries[path];
        if !e.tree.Dir? { continue; }
        var bytes := StagingDirBytes(e.tree);
        if IsExpired(l, e.modified) {
          entries := entries - {path};
          pruned := pruned + 1;
          continue;
        }
        total := SatAdd(total, bytes);
        retained := retained + [Kept(path, e.modified, bytes)];
      }
    }

    method Evict(ghost before: map<nat, Entry>, l: Limits, q: seq<Kept>, total0: u64) returns (total: u64, evicted: nat)
      requires Evicting(before, l, q, 0, entries, total0)
      modifies this
      ensures Evicting(before, l, q, evicted, entries, total)
      ensures evicted == |q| || total <= l.maxBytes
    {
      total, evicted := total0, 0;
      while evicted < |q|
        invariant Evicting(before, l, q, evicted, entries, total) && evicted <= |q|
      {
        hide Evicting;
        if total <= l.maxBytes { break; }
        EvictingStep(before, l, q, evicted, entries, total);
        entries := entries - {q[evicted].path};
        total := SatSub(total, q[evicted].bytes);
        evicted := evicted + 1;
      }
    }

    /** Prunes the cache; the listing may come in any order. */
    method Prune(l: Limits, listing: seq<nat>) returns (stats: Stats, ghost q: seq<Kept>, ghost evicted: nat)
      requires Distinct(listing) && forall p :: p in listing <==> p in entries
      modifies this
      ensures Pruned(old(entries), entries, l, listing, q, evicted, stats)
    {
      ghost var before := entries;
      var retained, total, pruned := Expire(l, listing);
      ScanDone(before, l, listing, entries, retained, total, pruned);
      var aged := Sort(ByAge, retained);
      q, evicted := aged, 0;
      if l.maxBytes == 0 || total <= l.maxBytes {
        NothingEvicted(before, entries, l, listing, q, total, pruned);
        return Stats(|retained|, total, pruned), q, evicted;
      }
      var evictions;
      total, evictions := Evict(before, l, aged, total);
      evicted := evictions;
      var left := CountExisting(before, l, aged, evicted, total);
      EvictionDone(before, entries, l, listing, aged, evicted, total, pruned);
      stats := Stats(left, total, pruned + evictions);
    }
  }

  lemma ScanDone(before: map<nat, Entry>, l: Limits, listing: seq<nat>, after: map<nat, Entry>, retained: seq<Kept>, total: nat, pruned: nat)
    requires Expiring(before, l, listing, |listing|, after, retained, total, pruned)
    requires Distinct(listing) && forall p :: p in listing <==> p in before
    ensures retained == KeptOf(before, l, listing) && pruned == |ExpiredOf(before, l, before.Keys)|
    ensures var q := Sort(ByAge, retained); |q| == |retained| && Aged(before, l, q) && Evicting(before, l, q, 0, after, total)
  {
    assert listing[..|listing|] == listing && SetOf(listing) == before.Keys;
    SortedIsAged(before, l, listing);
    var q := Sort(ByAge, retained);
    assert q[..0] == [] && Paths([]) == {} && Sum([]) == 0;
    hide Sort, Sum, ExpiredOf, KeptOf, Aged;
  }

  lemma NothingEvicted(before: map<nat, Entry>, after: map<nat, Entry>, l: Limits, listing: seq<nat>, q: seq<Kept>, total: u64, pruned: nat)
    requires q == Sort(ByAge, KeptOf(before, l, listing)) && Evicting(before, l, q, 0, after, total)
    requires pruned == |ExpiredOf(before, l, before.Keys)| && (l.maxBytes == 0 || total <= l.maxBytes)
    ensures Pruned(before, after, l, listing, q, 0, Stats(|q|, total, pruned))
  {
    hide Sort, Sum, ExpiredOf, KeptOf;
  }

  lemma EvictionDone(before: map<nat, Entry>, after: map<nat, Entry>, l: Limits, listing: seq<nat>, q: seq<Kept>, evicted: nat, total: u64, pruned: nat)
    requires q == Sort(ByAge, KeptOf(before, l, listing)) && Evicting(before, l, q, evicted, after, total)
    requires pruned == |ExpiredOf(before, l, before.Keys)| && l.maxBytes > 0 && (evicted == |q| || total <= l.maxBytes)
    ensures Pruned(before, after, l, listing, q, evicted, Stats(|q| - evicted, total, pruned + evicted))
  {
    hide Sort, Sum, ExpiredOf, KeptOf, Paths;
    assert evicted == |q| ==> q[..evicted] == q;
  }

  // ----- what a prune means

  lemma {:induction false} PathsSize(q: seq<Kept>)
    requires forall i, j :: 0 <= i < j < |q| ==> q[i].path != q[j].path
    ensures |Paths(q)| == |q|
  {
    if q != [] {
      var n := |q| - 1;
      PathsSize(q[..n]);
      assert q == q[..n] + [q[n]];
      assert Paths(q) == Paths(q[..n]) + {q[n].path};
    }
  }

  /** The directories that are left, each still as it was. */
  ghost function DirsOf(entries: map<nat, Entry>): set<nat> { set p | p in entries && entries[p].tree.Dir? }

  /** Different directories, oldest first. */
  ghost predicate OldestFirst(q: seq<Kept>) {
    forall i, j :: 0 <= i < j < |q| ==> q[i].path != q[j].path && q[i].modified <= q[j].modified
  }

  /** Modified less than the time to live ago, or in the future; a time to live of zero never ends. */
  ghost predicate IsCurrent(l: Limits, modified: nat) { l.ttl == 0 || l.now < modified + l.ttl }

  lemma CurrentIffNotExpired(l: Limits, modified: nat)
    ensures IsCurrent(l, modified) <==> !IsExpired(l, modified)
  {}

  /** The directories that have not expired. */
  ghost function Current(entries: map<nat, Entry>, l: Limits): set<nat> {
    set p | p in entries && entries[p].tree.Dir? && IsCurrent(l, entries[p].modified)
  }

  /** What age decides: a directory whose time is over goes, and any other goes only when it
      is evicted for the cap; without a cap it stays. */
  lemma AgeDecides(before: map<nat, Entry>, after: map<nat, Entry>, l: Limits, listing: seq<nat>, q: seq<Kept>, evicted: nat, stats: Stats, p: nat)
    requires Pruned(before, after, l, listing, q, evicted, stats)
    requires Distinct(listing) && forall x :: x in listing <==> x in before
    requires p in before && before[p].tree.Dir?
    ensures l.ttl > 0 && before[p].modified + l.ttl <= l.now ==> p !in after
    ensures l.ttl == 0 || before[p].modified + l.ttl > l.now ==> (p in after <==> p !in Paths(q[..evicted]))
    ensures (l.ttl == 0 || before[p].modified + l.ttl > l.now) && l.maxBytes == 0 ==> p in after
  {
    SurvivorsCounted(before, after, l, listing, q, evicted, stats);
    hide Sort, KeptOf, Sum, Remaining, Current, DirsOf;
    assert p in Current(before, l) <==> IsCurrent(l, before[p].modified) by { InCurrent(before, l, p); }
    assert p in DirsOf(after) <==> p in after by { InDirs(before, after, p); }
    assert l.maxBytes == 0 ==> q[..evicted] == [];
  }

  lemma InCurrent(before: map<nat, Entry>, l: Limits, p: nat)
    requires p in before && before[p].tree.Dir?
    ensures p in Current(before, l) <==> IsCurrent(l, before[p].modified)
  {}

  lemma InDirs(before: map<nat, Entry>, after: map<nat, Entry>, p: nat)
    requires p in before && before[p].tree.Dir? && (p in after ==> after[p] == before[p])
    ensures p in DirsOf(after) <==> p in after
  {}

  lemma PruneOrder(before: map<nat, Entry>, l: Limits, listing: seq<nat>, q: seq<Kept>)
    requires Distinct(listing) && (forall p :: p in listing <==> p in before)
    requires q == Sort(ByAge, KeptOf(before, l, listing))
    ensures Aged(before, l, q) && OldestFirst(q) && Paths(q) == Current(before, l)
  {
    hide *;
    SortedIsAged(before, l, listing);
    ByAgeIsTotal();
    SortFacts(ByAge, KeptOf(before, l, listing));
    AgedIsOldestFirst(before, l, q);
    CurrentIsKept(before, l, listing);
    PathsOfSame(KeptOf(before, l, listing), q);
  }

  lemma ByAgeIsTotal()
    ensures TotalOrder(ByAge)
  {}

  lemma AgedIsOldestFirst(before: map<nat, Entry>, l: Limits, q: seq<Kept>)
    requires Aged(before, l, q) && SortedBy(ByAge, q)
    ensures OldestFirst(q)
  {
    hide IsExpired, Bytes;
    forall i, j | 0 <= i < j < |q| ensures q[i].path != q[j].path && q[i].modified <= q[j].modified {
      assert q[i] in q && q[j] in q && ByAge(q[i], q[j]);
    }
  }

  lemma CurrentIsKept(before: map<nat, Entry>, l: Limits, listing: seq<nat>)
    requires Distinct(listing) && (forall p :: p in listing <==> p in before)
    ensures Paths(KeptOf(before, l, listing)) == Current(before, l)
  {
    KeptFacts(before, l, listing);
    forall p | p in before ensures IsCurrent(l, before[p].modified) <==> !IsExpired(l, before[p].modified) {
      CurrentIffNotExpired(l, before[p].modified);
    }
    hide KeptOf, IsExpired, IsCurrent, Bytes;
    forall p | p in Current(before, l) ensures p in Paths(KeptOf(before, l, listing)) {
      assert Kept(p, before[p].modified, Bytes(before[p].tree)) in KeptOf(before, l, listing);
    }
  }

  lemma PathsOfSame(p: seq<Kept>, q: seq<Kept>)
    requires multiset(p) == multiset(q)
    ensures Paths(p) == Paths(q)
  {
    SameMembers(p, q);
  }

  lemma PathsSplit(q: seq<Kept>, n: nat)
    requires OldestFirst(q) && n <= |q|
    ensures Paths(q) == Paths(q[..n]) + Paths(q[n..]) && Paths(q[..n]) !! Paths(q[n..])
    ensures |Paths(q[n..])| == |q| - n
  {
    var gone, left := q[..n], q[n..];
    assert q == gone + left;
    PathsSize(left);
    forall p | p in Paths(gone) ensures p !in Paths(left) {
      var i :| 0 <= i < n && gone[i].path == p;
      forall j | 0 <= j < |left| ensures left[j].path != p { assert q[i] == gone[i] && q[n + j] == left[j]; }
    }
  }

  lemma DirsCounted(dirs: set<nat>, expired: set<nat>, current: set<nat>, q: seq<Kept>)
    requires OldestFirst(q) && Paths(q) == current
    requires expired <= dirs && forall p :: p in current <==> p in dirs && p !in expired
    ensures |dirs| == |expired| + |q|
  {
    PathsSize(q);
    assert dirs == expired + current && expired !! current;
  }

  lemma RestIsCurrent(before: map<nat, Entry>, l: Limits)
    ensures forall p :: p in Current(before, l) <==> p in DirsOf(before) && p !in ExpiredOf(before, l, before.Keys)
    ensures forall p :: p in ExpiredOf(before, l, before.Keys) ==> p in DirsOf(before)
  {
    forall p | p in before ensures IsCurrent(l, before[p].modified) <==> !IsExpired(l, before[p].modified) {
      CurrentIffNotExpired(l, before[p].modified);
    }
    hide IsCurrent, IsExpired;
  }

  lemma LeftAreCurrent(before: map<nat, Entry>, after: map<nat, Entry>, l: Limits, gone: set<nat>)
    requires after == before - ExpiredOf(before, l, before.Keys) - gone && gone <= Current(before, l)
    ensures forall p :: p in after ==> p in before && after[p] == before[p]
    ensures forall p :: p in before && !before[p].tree.Dir? ==> p in after
    ensures DirsOf(after) == Current(before, l) - gone
    ensures forall p :: p in Current(before, l) <==> p in DirsOf(before) && p !in ExpiredOf(before, l, before.Keys)
    ensures ExpiredOf(before, l, before.Keys) <= DirsOf(before)
  {
    RestIsCurrent(before, l);
    hide IsExpired, IsCurrent;
  }

  /** What is not a directory stays, the surviving directories are those that neither expired
      nor were evicted, all unchanged; the counts are those of the directories that are left and
      of those that are gone. */
  lemma SurvivorsCounted(before: map<nat, Entry>, after: map<nat, Entry>, l: Limits, listing: seq<nat>, q: seq<Kept>, evicted: nat, stats: Stats)
    requires Pruned(before, after, l, listing, q, evicted, stats)
    requires Distinct(listing) && forall p :: p in listing <==> p in before
    ensures forall p :: p in after ==> p in before && after[p] == before[p]
    ensures forall p :: p in before && !before[p].tree.Dir? ==> p in after
    ensures DirsOf(after) == Current(before, l) - Paths(q[..evicted]) && stats.entries == |DirsOf(after)|
    ensures stats.prunedDirs == |DirsOf(before)| - |DirsOf(after)|
  {
    PruneOrder(before, l, listing, q);
    PathsSplit(q, evicted);
    hide Sort, KeptOf, Sum, Remaining, Current, Aged, OldestFirst, Paths, DirsOf, ExpiredOf;
    LeftAreCurrent(before, after, l, Paths(q[..evicted]));
    DirsCounted(DirsOf(before), ExpiredOf(before, l, before.Keys), Current(before, l), q);
    assert DirsOf(after) == Paths(q[evicted..]);
  }

  /** No evicted directory is newer than a survivor. */
  lemma EvictedAreOldest(before: map<nat, Entry>, after: map<nat, Entry>, l: Limits, listing: seq<nat>, q: seq<Kept>, evicted: nat, stats: Stats, gone: nat, left: nat)
    requires Pruned(before, after, l, listing, q, evicted, stats)
    requires Distinct(listing) && forall p :: p in listing <==> p in before
    requires gone in Current(before, l) && gone !in after && left in DirsOf(after)
    ensures before[gone].modified <= before[left].modified
  {
    PruneOrder(before, l, listing, q);
    PathsSplit(q, evicted);
    SurvivorsCounted(before, after, l, listing, q, evicted, stats);
    assert evicted <= |q|;
    hide Pruned, IsExpired, Aged, OldestFirst, Paths;
    assert gone in Paths(q[..evicted]) && left in Paths(q[evicted..]);
    OlderThan(before, l, q, evicted, gone, left);
  }

  lemma OlderThan(before: map<nat, Entry>, l: Limits, q: seq<Kept>, n: nat, gone: nat, left: nat)
    requires Aged(before, l, q) && OldestFirst(q) && n <= |q| && gone in Paths(q[..n]) && left in Paths(q[n..])
    ensures gone in before && left in before && before[gone].modified <= before[left].modified
  {
    hide IsExpired, Bytes;
    var i :| 0 <= i < n && q[..n][i].path == gone;
    var j :| 0 <= j < |q| - n && q[n..][j].path == left;
    assert q[i].path == gone && q[n + j].path == left && q[i] in q && q[n + j] in q;
  }
}
