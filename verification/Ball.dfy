/** Dependency graphs, and the packages within a given number of steps. */
module Ball {
  import opened Naturals

  /** A normalised package name. The searches only compare names, so a number stands for each. */
  type Package = nat

  /** What leads to what: dependents in the focus searches, dependencies in the crawl. */
  type Graph = map<Package, set<Package>>

  function Next(g: Graph, p: Package): set<Package> { if p in g then g[p] else {} }

  function Members(q: seq<Package>): set<Package> { set p | p in q }

  lemma {:induction false} MembersSize(q: seq<Package>)
    ensures |Members(q)| <= |q|
  {
    if q != [] {
      MembersSize(q[1..]);
      assert q == [q[0]] + q[1..] && Members(q) == Members(q[1..]) + {q[0]};
    }
  }

  ghost function Neighbours(g: Graph, s: set<Package>): set<Package> {
    set p, q | p in s && q in Next(g, p) :: q
  }

  lemma NeighboursUnion(g: Graph, s: set<Package>, t: set<Package>)
    ensures Neighbours(g, s + t) == Neighbours(g, s) + Neighbours(g, t)
  {}

  lemma NoNeighbours(g: Graph)
    ensures Neighbours(g, {}) == {}
  {}

  /** The packages at most `radius` steps from a source. */
  ghost function Within(g: Graph, sources: set<Package>, radius: nat): set<Package> {
    if radius == 0 then sources
    else Within(g, sources, radius - 1) + Neighbours(g, Within(g, sources, radius - 1))
  }

  lemma {:induction false} WithinGrows(g: Graph, sources: set<Package>, small: nat, large: nat)
    requires small <= large
    ensures Within(g, sources, small) <= Within(g, sources, large)
    decreases large
  {
    if small < large { WithinGrows(g, sources, small, large - 1); }
  }

  lemma WithinStep(g: Graph, sources: set<Package>, radius: nat, p: Package, q: Package)
    requires p in Within(g, sources, radius) && q in Next(g, p)
    ensures q in Within(g, sources, radius + 1)
  {}

  lemma WithinUnfold(g: Graph, sources: set<Package>, radius: nat)
    requires radius > 0
    ensures Within(g, sources, radius) == Within(g, sources, radius - 1) + Neighbours(g, Within(g, sources, radius - 1))
  {}

  lemma NextIsWithin(g: Graph, sources: set<Package>, radius: nat, limit: nat, p: Package, q: Package)
    requires p in Within(g, sources, radius) && radius < limit && q in Next(g, p)
    ensures q in Within(g, sources, limit)
  {
    WithinStep(g, sources, radius, p, q);
    WithinGrows(g, sources, radius + 1, limit);
  }

  /** Once a step adds nothing, no later step does. */
  lemma {:induction false} WithinSaturates(g: Graph, sources: set<Package>, small: nat, large: nat)
    requires small <= large && Neighbours(g, Within(g, sources, small)) <= Within(g, sources, small)
    ensures Within(g, sources, large) == Within(g, sources, small)
    decreases large
  {
    if small < large { WithinSaturates(g, sources, small, large - 1); }
  }

  /** What was visited is everything nearer than some depth, and nothing farther. */
  ghost predicate NearestFirst(g: Graph, sources: set<Package>, depth: nat, visited: set<Package>) {
    && (depth == 0 || Within(g, sources, depth - 1) <= visited)
    && visited <= Within(g, sources, depth)
  }

  /** Every visited package is a source or next to a visited one. */
  ghost predicate Connected(g: Graph, sources: set<Package>, visited: set<Package>) {
    forall q :: q in visited && q !in sources ==> exists p :: p in visited && q in Next(g, p)
  }

  /** The ball around a target cut to `max` packages: as many as there are or as fit, nearest
      first, each but the target next to another, and truncated exactly when some are left out. */
  ghost predicate CutBall(g: Graph, target: Package, radius: nat, max: nat, visited: set<Package>, truncated: bool) {
    var ball := Within(g, {target}, radius);
    && target in visited && visited <= ball && |visited| == Min(|ball|, max)
    && (truncated <==> |ball| > max)
    && (exists depth: nat :: NearestFirst(g, {target}, depth, visited))
    && Connected(g, {target}, visited)
  }

  lemma WholeBallIsCut(g: Graph, target: Package, radius: nat, max: nat, visited: set<Package>)
    requires visited == Within(g, {target}, radius) && |visited| <= max
    ensures CutBall(g, target, radius, max, visited, false)
  {
    hide Within, Connected;
    WithinGrows(g, {target}, 0, radius);
    SourcesOnly(g, {target});
    BallIsNearest(g, {target}, radius);
    NearestIsConnected(g, {target}, radius, visited);
  }

  lemma FullIsCut(g: Graph, target: Package, radius: nat, max: nat, visited: set<Package>, depth: nat)
    requires target in visited && visited <= Within(g, {target}, radius) && |visited| == max < |Within(g, {target}, radius)|
    requires NearestFirst(g, {target}, depth, visited)
    ensures CutBall(g, target, radius, max, visited, true)
  {
    hide Within, Connected, NearestFirst;
    NearestIsConnected(g, {target}, depth, visited);
  }

  lemma InNeighbours(g: Graph, s: set<Package>, q: Package) returns (p: Package)
    requires q in Neighbours(g, s)
    ensures p in s && q in Next(g, p)
  {
    p :| p in s && q in Next(g, p);
  }

  lemma SourcesOnly(g: Graph, sources: set<Package>)
    ensures Within(g, sources, 0) == sources
  {}

  lemma {:induction false} FirstStep(g: Graph, sources: set<Package>, depth: nat, q: Package) returns (p: Package)
    requires q in Within(g, sources, depth) && q !in sources
    ensures depth > 0 && p in Within(g, sources, depth - 1) && q in Next(g, p)
    decreases depth
  {
    hide Within, Neighbours, Next;
    if depth == 0 {
      SourcesOnly(g, sources);
      p := q;
    } else {
      WithinUnfold(g, sources, depth);
      if q in Within(g, sources, depth - 1) {
        p := FirstStep(g, sources, depth - 1, q);
        WithinGrows(g, sources, depth - 2, depth - 1);
      } else {
        p := InNeighbours(g, Within(g, sources, depth - 1), q);
      }
    }
  }

  lemma NearestIsConnected(g: Graph, sources: set<Package>, depth: nat, visited: set<Package>)
    requires NearestFirst(g, sources, depth, visited)
    ensures Connected(g, sources, visited)
  {
    hide Within;
    forall q | q in visited && q !in sources ensures exists p :: p in visited && q in Next(g, p) {
      var p := FirstStep(g, sources, depth, q);
    }
  }

  lemma BallIsNearest(g: Graph, sources: set<Package>, depth: nat)
    ensures NearestFirst(g, sources, depth, Within(g, sources, depth))
  {
    hide Within;
    if depth > 0 { WithinGrows(g, sources, depth - 1, depth); }
  }

  /** A search that gave each source depth zero, and each neighbour of a package above the
      limit at most one more than that package, has seen the whole ball. */
  lemma {:induction false} DepthsCover(g: Graph, sources: set<Package>, limit: nat, depthOf: map<Package, nat>, radius: nat)
    requires radius <= limit
    requires forall p :: p in sources ==> p in depthOf && depthOf[p] == 0
    requires forall p, q :: p in depthOf && depthOf[p] < limit && q in Next(g, p) ==> q in depthOf && depthOf[q] <= depthOf[p] + 1
    ensures forall p :: p in Within(g, sources, radius) ==> p in depthOf && depthOf[p] <= radius
  {
    if radius > 0 {
      DepthsCover(g, sources, limit, depthOf, radius - 1);
    }
  }

  lemma SubsetSize<T>(small: set<T>, large: set<T>)
    requires small <= large
    ensures |small| <= |large|
    ensures |small| == |large| ==> small == large
  {
    if !(large <= small) {
      var x :| x in large && x !in small;
      ProperSize(small, large, x);
    } else {
      assert small == large;
    }
  }

  lemma {:induction false} ProperSize<T>(small: set<T>, large: set<T>, x: T)
    requires small <= large && x in large && x !in small
    ensures |small| < |large|
    decreases |small|
  {
    if small != {} {
      var y :| y in small;
      ProperSize(small - {y}, large - {y}, x);
    }
  }

  /** Fewer packages are left once more have been visited. */
  lemma LeftShrinks<T>(all: set<T>, before: set<T>, after: set<T>)
    requires before <= after <= all
    ensures before != after ==> |all - after| < |all - before|
  {
    if before != after {
      var x :| x in after && x !in before;
      ProperSize(all - after, all - before, x);
    }
  }
}
