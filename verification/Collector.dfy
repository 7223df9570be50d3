/** The registry crawl: level by level from the seeds, within a capacity, with the fetches
    of a level completing in any order. */
module Collector {
  import opened Wrappers
  import opened Ball
  import opened Naturals

  /** What fetching a package found. A package missing from the registry fails to fetch. */
  datatype Node = Node(dependencies: seq<Package>, popularity: Option<int>, repository: Option<nat>, external: bool)

  type Registry = map<Package, Node>

  function Dependencies(r: Registry, p: Package): set<Package> {
    if p in r then Members(r[p].dependencies) else {}
  }

  /** Packages and what they depend on, as far as they can be fetched. */
  ghost function Forward(r: Registry): Graph { map p | p in r :: Members(r[p].dependencies) }

  datatype Material = Material(
    packages: map<Package, Option<int>>, edges: set<(Package, Package)>, repositories: map<Package, nat>,
    failures: nat, fallbacks: nat)

  /** A seed's or popularity record's value wins over the registry's. */
  function PopularityOf(r: Registry, popularity: map<Package, int>, p: Package): Option<int> {
    if p in popularity then Some(popularity[p]) else if p in r then r[p].popularity else None
  }

  ghost function EdgesFrom(r: Registry, done: set<Package>): set<(Package, Package)> {
    set p, q | p in done && q in Dependencies(r, p) :: (p, q)
  }

  ghost function Records(r: Registry, popularity: map<Package, int>, done: set<Package>): map<Package, Option<int>> {
    map p | p in done :: PopularityOf(r, popularity, p)
  }

  ghost function Repositories(r: Registry, done: set<Package>): map<Package, nat> {
    map p | p in done && p in r && r[p].repository.Some? :: r[p].repository.value
  }

  ghost function Missing(r: Registry, done: set<Package>): set<Package> { set p | p in done && p !in r }

  ghost function Fallbacks(r: Registry, done: set<Package>): set<Package> { set p | p in done && p in r && r[p].external }

  /** The output is a function of the packages that were scheduled: each has a record,
      whether its fetch succeeded or not, and each edge starts at one of them. */
  ghost predicate IsMaterial(r: Registry, popularity: map<Package, int>, done: set<Package>, m: Material) {
    && m.packages == Records(r, popularity, done)
    && m.edges == EdgesFrom(r, done)
    && m.repositories == Repositories(r, done)
    && m.failures == |Missing(r, done)|
    && m.fallbacks == |Fallbacks(r, done)|
  }

  // ----- one level

  /** What a level schedules: new packages of the frontier, all of them unless the capacity
      is reached. */
  ghost predicate Scheduled(frontier: seq<Package>, seen: set<Package>, max: nat, level: set<Package>) {
    && level <= Members(frontier) && level !! seen
    && |seen + level| <= max
    && (Members(frontier) <= seen + level || |seen + level| == max)
  }

  method ScheduleLevel(frontier: seq<Package>, seen0: set<Package>, max: nat) returns (level: set<Package>, seen: set<Package>)
    requires |seen0| <= max
    ensures Scheduled(frontier, seen0, max, level) && seen == seen0 + level
  {
    seen := seen0;
    level := {};
    var remainingCapacity := max - |seen0|;
    var scheduledSet: set<Package> := {};
    var n := 0;
    while n < |frontier|
      invariant n <= |frontier|
      invariant seen == seen0 + level && level !! seen0 && scheduledSet == level
      invariant |level| <= remainingCapacity && |seen| == |seen0| + |level|
      invariant forall p :: p in level ==> p in frontier
      invariant forall i :: 0 <= i < n ==> frontier[i] in seen
    {
      var p := frontier[n];
      n := n + 1;
      if p in seen || p in scheduledSet {
        continue;
      }
      scheduledSet := scheduledSet + {p};
      if |level| >= remainingCapacity {
        break;
      }
      seen := seen + {p};
      level := level + {p};
    }
  }

  lemma CountsSnoc(r: Registry, done: set<Package>, p: Package)
    requires p !in done
    ensures |Missing(r, done + {p})| == |Missing(r, done)| + (if p in r then 0 else 1)
    ensures |Fallbacks(r, done + {p})| == |Fallbacks(r, done)| + (if p in r && r[p].external then 1 else 0)
  {
    assert Missing(r, done + {p}) == if p in r then Missing(r, done) else Missing(r, done) + {p};
    assert Fallbacks(r, done + {p}) == if p in r && r[p].external then Fallbacks(r, done) + {p} else Fallbacks(r, done);
  }

  lemma EdgesSnoc(r: Registry, done: set<Package>, p: Package)
    ensures EdgesFrom(r, done + {p}) == EdgesFrom(r, done) + (set q | q in Dependencies(r, p) :: (p, q))
  {}

  lemma RecordsSnoc(r: Registry, popularity: map<Package, int>, done: set<Package>, p: Package)
    ensures Records(r, popularity, done + {p}) == Records(r, popularity, done)[p := PopularityOf(r, popularity, p)]
  {}

  lemma RepositoriesSnoc(r: Registry, done: set<Package>, p: Package)
    ensures Repositories(r, done + {p})
         == if p in r && r[p].repository.Some? then Repositories(r, done)[p := r[p].repository.value] else Repositories(r, done)
  {}

  /** The body of the result loop, for one completed fetch. */
  method AddResult(r: Registry, popularity: map<Package, int>, ghost done: set<Package>, m: Material, p: Package) returns (n: Material)
    requires IsMaterial(r, popularity, done, m) && p !in done
    ensures IsMaterial(r, popularity, done + {p}, n)
  {
    CountsSnoc(r, done, p);
    EdgesSnoc(r, done, p);
    RecordsSnoc(r, popularity, done, p);
    RepositoriesSnoc(r, done, p);
    hide Missing, Fallbacks, EdgesFrom, Records, Repositories;
    n := m;
    var override := if p in popularity then Some(popularity[p]) else None;
    if p in r {
      var node := r[p];
      if node.external { n := n.(fallbacks := n.fallbacks + 1); }
      var direct := if override.Some? then override else node.popularity;
      n := n.(packages := n.packages[p := direct]);
      if node.repository.Some? { n := n.(repositories := n.repositories[p := node.repository.value]); }
      n := n.(edges := n.edges + set q | q in Members(node.dependencies) :: (p, q));
    } else {
      n := n.(failures := n.failures + 1, packages := n.packages[p := override]);
      assert (set q | q in Dependencies(r, p) :: (p, q)) == {};
    }
  }

  /** Queues what a fetched package depends on and the crawl has not seen. */
  method PushUnseen(next0: seq<Package>, dependencies: seq<Package>, seen: set<Package>) returns (next: seq<Package>)
    ensures Members(next) == Members(next0) + (Members(dependencies) - seen)
  {
    next := next0;
    for n := 0 to |dependencies|
      invariant forall p :: p in next <==> p in next0 || (p !in seen && p in dependencies[..n])
    {
      if dependencies[n] !in seen { next := next + [dependencies[n]]; }
    }
  }

  /** What the next level starts from. */
  ghost function Queued(r: Registry, deeper: bool, fetched: set<Package>, seen: set<Package>): set<Package> {
    if deeper then Neighbours(Forward(r), fetched) - seen else {}
  }

  method CollectOne(
    r: Registry, popularity: map<Package, int>, deeper: bool, seen: set<Package>,
    ghost done0: set<Package>, ghost fetched: set<Package>, next0: seq<Package>, m0: Material, p: Package)
    returns (next: seq<Package>, m: Material)
    requires p !in done0 + fetched && IsMaterial(r, popularity, done0 + fetched, m0)
    requires Members(next0) == Queued(r, deeper, fetched, seen)
    ensures IsMaterial(r, popularity, done0 + fetched + {p}, m)
    ensures Members(next) == Queued(r, deeper, fetched + {p}, seen)
  {
    hide *;
    m := AddResult(r, popularity, done0 + fetched, m0, p);
    next := next0;
    if deeper && p in r { next := PushUnseen(next, r[p].dependencies, seen); }
    QueuedSnoc(r, deeper, fetched, seen, p);
  }

  ghost predicate Split(level: set<Package>, done0: set<Package>, fetched: set<Package>, pending: set<Package>) {
    fetched + pending == level && fetched !! pending && level !! done0
  }

  /** The fetches of a level complete in any order, each exactly once. */
  method CollectLevel(
    r: Registry, popularity: map<Package, int>, deeper: bool, level: set<Package>, seen: set<Package>,
    ghost done0: set<Package>, m0: Material) returns (next: seq<Package>, m: Material)
    requires level !! done0 && IsMaterial(r, popularity, done0, m0)
    ensures IsMaterial(r, popularity, done0 + level, m)
    ensures Members(next) == Queued(r, deeper, level, seen)
  {
    next, m := [], m0;
    var pending := level;
    ghost var fetched: set<Package> := {};
    assert done0 + fetched == done0 && Split(level, done0, fetched, pending);
    hide *;
    NothingQueued(r, deeper, seen);
    NoMembers();
    while pending != {}
      invariant Split(level, done0, fetched, pending)
      invariant IsMaterial(r, popularity, done0 + fetched, m)
      invariant Members(next) == Queued(r, deeper, fetched, seen)
      decreases |pending|
    {
      var p :| p in pending;
      NextFetch(level, done0, fetched, pending, p);
      next, m := CollectOne(r, popularity, deeper, seen, done0, fetched, next, m, p);
      fetched := fetched + {p};
      pending := pending - {p};
    }
    AllFetched(level, done0, fetched);
  }

  lemma NothingQueued(r: Registry, deeper: bool, seen: set<Package>)
    ensures Queued(r, deeper, {}, seen) == {}
  {}

  lemma NoMembers()
    ensures Members([]) == {}
  {}

  lemma AllFetched(level: set<Package>, done0: set<Package>, fetched: set<Package>)
    requires Split(level, done0, fetched, {})
    ensures fetched == level
  {}

  lemma NextFetch(level: set<Package>, done0: set<Package>, fetched: set<Package>, pending: set<Package>, p: Package)
    requires Split(level, done0, fetched, pending) && p in pending
    ensures p !in done0 + fetched && (done0 + fetched) + {p} == done0 + (fetched + {p})
    ensures Split(level, done0, fetched + {p}, pending - {p})
  {}

  lemma QueuedSnoc(r: Registry, deeper: bool, fetched: set<Package>, seen: set<Package>, p: Package)
    ensures Queued(r, deeper, fetched + {p}, seen)
         == Queued(r, deeper, fetched, seen) + (if deeper && p in r then Members(r[p].dependencies) - seen else {})
  {
    NeighboursSnoc(r, fetched, p);
    hide Neighbours, Members, Forward;
  }

  lemma NeighboursSnoc(r: Registry, fetched: set<Package>, p: Package)
    ensures Neighbours(Forward(r), fetched + {p}) == Neighbours(Forward(r), fetched) + Dependencies(r, p)
  {
    assert Next(Forward(r), p) == Dependencies(r, p);
  }

  // ----- the whole crawl

  ghost function Reach(r: Registry, seeds: seq<Package>, depth: nat): set<Package> {
    Within(Forward(r), Members(seeds), depth)
  }

  /** What has been seen when a level starts: everything strictly nearer, and the frontier
      is what else lies within `depth`; or the capacity is used up. */
  ghost predicate AtLevel(r: Registry, seeds: seq<Package>, depth: nat, seen: set<Package>, frontier: seq<Package>) {
    && seen == (if depth == 0 then {} else Reach(r, seeds, depth - 1))
    && seen + Members(frontier) == Reach(r, seeds, depth)
  }

  /** Packages are taken nearest first: all that lie within the depth limit or, where those
      are too many, exactly as many as the capacity allows. */
  ghost predicate IsCrawl(r: Registry, seeds: seq<Package>, maxDepth: nat, max: nat, done: set<Package>) {
    && done <= Reach(r, seeds, maxDepth)
    && |done| == Min(|Reach(r, seeds, maxDepth)|, max)
    && exists depth: nat :: NearestFirst(Forward(r), Members(seeds), depth, done)
  }

  lemma LevelSets(seen: set<Package>, level: set<Package>, frontier: set<Package>, bySeen: set<Package>, byLevel: set<Package>, next: set<Package>)
    requires level <= frontier <= seen + level
    requires bySeen <= seen + frontier && next == byLevel - (seen + level)
    ensures seen + level == seen + frontier
    ensures seen + level + next == seen + frontier + (bySeen + byLevel)
  {}

  lemma LevelDone(r: Registry, seeds: seq<Package>, depth: nat, seen: set<Package>, frontier: seq<Package>, level: set<Package>, next: seq<Package>)
    requires AtLevel(r, seeds, depth, seen, frontier)
    requires level <= Members(frontier) <= seen + level
    requires Members(next) == Neighbours(Forward(r), level) - (seen + level)
    ensures AtLevel(r, seeds, depth + 1, seen + level, next)
  {
    hide Neighbours, Within, Members, Forward;
    var g := Forward(r);
    NeighboursUnion(g, seen, level);
    WithinUnfold(g, Members(seeds), depth + 1);
    if depth > 0 {
      WithinUnfold(g, Members(seeds), depth);
    } else {
      NoNeighbours(g);
    }
    LevelSets(seen, level, Members(frontier), Neighbours(g, seen), Neighbours(g, level), Members(next));
  }

  lemma Exhausted(r: Registry, seeds: seq<Package>, depth: nat, seen: set<Package>, frontier: seq<Package>, limit: nat)
    requires AtLevel(r, seeds, depth, seen, frontier) && Members(frontier) <= seen && depth <= limit
    ensures Reach(r, seeds, limit) == seen && NearestFirst(Forward(r), Members(seeds), depth, seen)
  {
    hide Neighbours, Within, Members, Forward;
    var g := Forward(r);
    if depth == 0 {
      NoNeighbours(g);
      SourcesOnly(g, Members(seeds));
      assert Members(seeds) == {};
      WithinSaturates(g, Members(seeds), 0, limit);
    } else {
      WithinUnfold(g, Members(seeds), depth);
      WithinSaturates(g, Members(seeds), depth - 1, limit);
    }
  }

  lemma Full(r: Registry, seeds: seq<Package>, maxDepth: nat, max: nat, depth: nat, seen: set<Package>)
    requires |seen| == max && depth <= maxDepth && NearestFirst(Forward(r), Members(seeds), depth, seen)
    ensures IsCrawl(r, seeds, maxDepth, max, seen)
  {
    WithinGrows(Forward(r), Members(seeds), depth, maxDepth);
    SubsetSize(seen, Reach(r, seeds, maxDepth));
  }

  /** The state of the level loop. */
  ghost predicate Crawling(r: Registry, seeds: seq<Package>, maxDepth: nat, max: nat, depth: nat, seen: set<Package>, frontier: seq<Package>) {
    && |seen| <= max
    && ((depth <= maxDepth && AtLevel(r, seeds, depth, seen, frontier))
        || ((depth > maxDepth || |seen| == max) && IsCrawl(r, seeds, maxDepth, max, seen)))
  }

  lemma Stopped(r: Registry, seeds: seq<Package>, maxDepth: nat, max: nat, depth: nat, seen: set<Package>, frontier: seq<Package>)
    requires Crawling(r, seeds, maxDepth, max, depth, seen, frontier)
    requires depth > maxDepth || Members(frontier) <= seen || |seen| >= max
    ensures IsCrawl(r, seeds, maxDepth, max, seen)
  {
    if depth <= maxDepth && AtLevel(r, seeds, depth, seen, frontier) {
      if Members(frontier) <= seen {
        Exhausted(r, seeds, depth, seen, frontier, maxDepth);
      } else {
        Full(r, seeds, maxDepth, max, depth, seen);
      }
    }
  }

  lemma Advanced(
    r: Registry, seeds: seq<Package>, maxDepth: nat, max: nat, depth: nat, seen: set<Package>, frontier: seq<Package>,
    level: set<Package>, next: seq<Package>)
    requires Crawling(r, seeds, maxDepth, max, depth, seen, frontier) && depth <= maxDepth && |seen| < max
    requires Scheduled(frontier, seen, max, level)
    requires Members(next) == Queued(r, depth < maxDepth, level, seen + level)
    ensures Crawling(r, seeds, maxDepth, max, depth + 1, seen + level, next)
  {
    hide Neighbours, Within;
    if |seen + level| == max {
      Full(r, seeds, maxDepth, max, depth, seen + level);
    } else if depth < maxDepth {
      LevelDone(r, seeds, depth, seen, frontier, level, next);
    } else {
      assert seen + level == Reach(r, seeds, maxDepth);
      assert NearestFirst(Forward(r), Members(seeds), depth, seen + level);
    }
  }

  lemma CrawlStarts(r: Registry, seeds: seq<Package>, maxDepth: nat, max: nat)
    ensures Crawling(r, seeds, maxDepth, max, 0, {}, seeds)
  {}

  lemma NothingCollected(r: Registry, popularity: map<Package, int>)
    ensures IsMaterial(r, popularity, {}, Material(map[], {}, map[], 0, 0))
  {}

  lemma NothingScheduled(frontier: seq<Package>, seen: set<Package>, max: nat)
    requires Scheduled(frontier, seen, max, {})
    ensures Members(frontier) <= seen || |seen| >= max
  {
    assert seen + {} == seen;
  }

  lemma ScheduledIsNew(frontier: seq<Package>, seen: set<Package>, max: nat, level: set<Package>)
    requires Scheduled(frontier, seen, max, level)
    ensures level !! seen
  {}

  /** The crawl schedules packages nearest first up to the capacity, and its output is the
      material of exactly those, whatever the order the fetches complete in. */
  method CollectGraphMaterial(
    r: Registry, popularity: map<Package, int>, seeds: seq<Package>, maxDepth: nat, maxPackages: nat, concurrency: nat)
    returns (result: Result<Material>, ghost done: set<Package>)
    ensures result.Err? <==> maxPackages == 0 || concurrency == 0
    ensures result.Ok? ==> IsCrawl(r, seeds, maxDepth, maxPackages, done) && IsMaterial(r, popularity, done, result.value)
  {
    done := {};
    if maxPackages == 0 { return Err, done; }
    if concurrency == 0 { return Err, done; }
    hide *;
    var seen: set<Package>, frontier := {}, seeds;
    var m := Material(map[], {}, map[], 0, 0);
    NothingCollected(r, popularity);
    CrawlStarts(r, seeds, maxDepth, maxPackages);
    for depth := 0 to maxDepth + 1
      invariant IsMaterial(r, popularity, seen, m)
      invariant Crawling(r, seeds, maxDepth, maxPackages, depth, seen, frontier)
    {
      done := seen;
      NoMembers();
      if |frontier| == 0 || |seen| >= maxPackages {
        Stopped(r, seeds, maxDepth, maxPackages, depth, seen, frontier);
        return Ok(m), done;
      }
      var level;
      level, seen := ScheduleLevel(frontier, seen, maxPackages);
      if level == {} {
        NothingScheduled(frontier, done, maxPackages);
        Stopped(r, seeds, maxDepth, maxPackages, depth, done, frontier);
        return Ok(m), done;
      }
      ScheduledIsNew(frontier, done, maxPackages, level);
      var next;
      next, m := CollectLevel(r, popularity, depth < maxDepth, level, seen, done, m);
      Advanced(r, seeds, maxDepth, maxPackages, depth, done, frontier, level, next);
      frontier := next;
    }
    Stopped(r, seeds, maxDepth, maxPackages, maxDepth + 1, seen, frontier);
    return Ok(m), seen;
  }

  /** When the whole ball fits, the output does not depend on the order of the fetches. */
  lemma MaterialUnique(
    r: Registry, popularity: map<Package, int>, seeds: seq<Package>, maxDepth: nat, max: nat,
    done: set<Package>, m: Material, other: set<Package>, n: Material)
    requires IsCrawl(r, seeds, maxDepth, max, done) && IsMaterial(r, popularity, done, m)
    requires IsCrawl(r, seeds, maxDepth, max, other) && IsMaterial(r, popularity, other, n)
    requires |Reach(r, seeds, maxDepth)| <= max
    ensures done == other == Reach(r, seeds, maxDepth) && m == n
  {
    SubsetSize(done, Reach(r, seeds, maxDepth));
    SubsetSize(other, Reach(r, seeds, maxDepth));
  }

  /** Seeds that fit the capacity are all recorded, even those whose fetch fails. */
  lemma SeedsCollected(r: Registry, popularity: map<Package, int>, seeds: seq<Package>, maxDepth: nat, max: nat, done: set<Package>, m: Material)
    requires IsCrawl(r, seeds, maxDepth, max, done) && IsMaterial(r, popularity, done, m)
    requires |Members(seeds)| <= max
    ensures Members(seeds) <= m.packages.Keys
  {
    hide Neighbours, Within, Members, Forward, EdgesFrom, Repositories, Missing, Fallbacks;
    var g := Forward(r);
    var depth: nat :| NearestFirst(Forward(r), Members(seeds), depth, done);
    SourcesOnly(g, Members(seeds));
    WithinGrows(g, Members(seeds), 0, maxDepth);
    SubsetSize(Members(seeds), Reach(r, seeds, maxDepth));
    if depth == 0 {
      SubsetSize(done, Members(seeds));
    } else {
      WithinGrows(g, Members(seeds), 0, depth - 1);
    }
  }

  /** Every edge starts at a recorded package and is one of its dependencies. */
  lemma EdgeSourcesRecorded(r: Registry, popularity: map<Package, int>, done: set<Package>, m: Material, edge: (Package, Package))
    requires IsMaterial(r, popularity, done, m) && edge in m.edges
    ensures edge.0 in m.packages && edge.1 in Dependencies(r, edge.0)
  {
    hide Repositories;
  }
}
