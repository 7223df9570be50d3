/** The focus search over exported dependents: breadth first, marking packages when queued. */
module OfflineFocus {
  import opened Wrappers
  import opened Ball
  import opened Sequences

  type Queue = seq<(Package, nat)>

  /** Depths are reachable and within the limit. */
  ghost predicate Depths(g: Graph, target: Package, limit: nat, depthOf: map<Package, nat>) {
    && target in depthOf && depthOf[target] == 0
    && forall p :: p in depthOf ==> depthOf[p] <= limit && p in Within(g, {target}, depthOf[p])
  }

  /** The queue holds marked packages in order of depth, over at most two depths, and
      nothing is marked deeper than the queue reaches. */
  ghost predicate Layered(depthOf: map<Package, nat>, queue: Queue, low: nat) {
    && (forall i :: 0 <= i < |queue| ==> queue[i].0 in depthOf && depthOf[queue[i].0] == queue[i].1)
    && (forall i :: 0 <= i < |queue| ==> low <= queue[i].1 <= low + 1)
    && (forall i, j :: 0 <= i < j < |queue| ==> queue[i].1 <= queue[j].1)
    && (forall p :: p in depthOf ==> depthOf[p] <= low + 1)
  }

  /** All of `next` is marked no deeper than one below a package at `depth`. */
  ghost predicate Marked(depthOf: map<Package, nat>, next: set<Package>, depth: nat) {
    forall q :: q in next ==> q in depthOf && depthOf[q] <= depth + 1
  }

  /** Every marked package above the limit is queued, or all it leads to is marked. */
  ghost predicate Expanded(g: Graph, limit: nat, depthOf: map<Package, nat>, queue: Queue, besides: set<Package>) {
    forall p :: p in depthOf && depthOf[p] < limit && p !in besides ==>
      (p, depthOf[p]) in queue || Marked(depthOf, Next(g, p), depthOf[p])
  }

  lemma PopKeeps(g: Graph, limit: nat, depthOf: map<Package, nat>, queue: Queue)
    requires queue != [] && Layered(depthOf, queue, queue[0].1) && Expanded(g, limit, depthOf, queue, {})
    ensures Layered(depthOf, queue[1..], queue[0].1)
    ensures Expanded(g, limit, depthOf, queue[1..], {queue[0].0})
  {
    assert queue == [queue[0]] + queue[1..];
  }

  /** Once the popped package is expanded, the next in the queue sets the low depth. */
  lemma RestLayered(depthOf: map<Package, nat>, queue: Queue, low: nat)
    requires Layered(depthOf, queue, low)
    ensures queue != [] ==> Layered(depthOf, queue, queue[0].1)
  {}

  lemma ExpandedKeeps(g: Graph, limit: nat, depthOf: map<Package, nat>, queue: Queue, p: Package)
    requires Expanded(g, limit, depthOf, queue, {p})
    requires p in depthOf ==> depthOf[p] >= limit || Marked(depthOf, Next(g, p), depthOf[p])
    ensures Expanded(g, limit, depthOf, queue, {})
  {}

  lemma PushDepths(g: Graph, target: Package, limit: nat, depthOf: map<Package, nat>, p: Package, q: Package)
    requires Depths(g, target, limit, depthOf) && p in depthOf && depthOf[p] < limit && q !in depthOf && q in Next(g, p)
    ensures Depths(g, target, limit, depthOf[q := depthOf[p] + 1])
  {
    WithinStep(g, {target}, depthOf[p], p, q);
  }

  lemma PushLayered(depthOf: map<Package, nat>, queue: Queue, low: nat, q: Package)
    requires Layered(depthOf, queue, low) && q !in depthOf
    ensures Layered(depthOf[q := low + 1], queue + [(q, low + 1)], low)
  {}

  lemma MarkedStays(depthOf: map<Package, nat>, next: set<Package>, depth: nat, q: Package, d: nat)
    requires Marked(depthOf, next, depth) && q !in depthOf
    ensures Marked(depthOf[q := d], next, depth)
    ensures d <= depth + 1 ==> Marked(depthOf[q := d], next + {q}, depth)
  {}

  lemma PushExpanded(g: Graph, limit: nat, depthOf: map<Package, nat>, queue: Queue, p: Package, q: Package, d: nat)
    requires Expanded(g, limit, depthOf, queue, {p}) && q !in depthOf
    ensures Expanded(g, limit, depthOf[q := d], queue + [(q, d)], {p})
  {
    var m := depthOf[q := d];
    forall x | x in m && m[x] < limit && x !in {p} ensures (x, m[x]) in queue + [(q, d)] || Marked(m, Next(g, x), m[x]) {
      InSnoc(queue, (q, d), (x, m[x]));
      if x != q && Marked(depthOf, Next(g, x), depthOf[x]) {
        MarkedStays(depthOf, Next(g, x), depthOf[x], q, d);
      }
    }
  }

  lemma VisitedWithin(g: Graph, target: Package, limit: nat, depthOf: map<Package, nat>)
    requires Depths(g, target, limit, depthOf)
    ensures depthOf.Keys <= Within(g, {target}, limit)
    ensures |depthOf.Keys| <= |Within(g, {target}, limit)|
  {
    forall p | p in depthOf ensures p in Within(g, {target}, limit) {
      WithinGrows(g, {target}, depthOf[p], limit);
    }
    SubsetSize(depthOf.Keys, Within(g, {target}, limit));
  }

  lemma EmptyQueueIsComplete(g: Graph, target: Package, limit: nat, depthOf: map<Package, nat>)
    requires Depths(g, target, limit, depthOf) && Expanded(g, limit, depthOf, [], {})
    ensures depthOf.Keys == Within(g, {target}, limit)
  {
    VisitedWithin(g, target, limit, depthOf);
    DepthsCover(g, {target}, limit, depthOf, limit);
  }

  /** The search between two iterations of its outer loop. */
  ghost predicate Idle(g: Graph, target: Package, limit: nat, max: nat, depthOf: map<Package, nat>, visited: set<Package>, queue: Queue) {
    && Depths(g, target, limit, depthOf) && visited == depthOf.Keys && |visited| <= max
    && (queue != [] ==> Layered(depthOf, queue, queue[0].1))
    && Expanded(g, limit, depthOf, queue, {})
  }

  /** The search while it expands `p`, having handled the dependents in `handled`. */
  ghost predicate Busy(g: Graph, target: Package, limit: nat, max: nat, depthOf: map<Package, nat>, visited: set<Package>,
                       queue: Queue, p: Package, depth: nat, handled: set<Package>) {
    && Depths(g, target, limit, depthOf) && visited == depthOf.Keys && |visited| <= max
    && p in depthOf && depthOf[p] == depth
    && Layered(depthOf, queue, depth)
    && Expanded(g, limit, depthOf, queue, {p})
    && Marked(depthOf, handled, depth)
  }

  lemma PopIsBusy(g: Graph, target: Package, limit: nat, max: nat, depthOf: map<Package, nat>, visited: set<Package>, queue: Queue)
    requires Idle(g, target, limit, max, depthOf, visited, queue) && queue != []
    ensures Busy(g, target, limit, max, depthOf, visited, queue[1..], queue[0].0, queue[0].1, {})
  {
    PopKeeps(g, limit, depthOf, queue);
  }

  lemma BusyIsIdle(g: Graph, target: Package, limit: nat, max: nat, depthOf: map<Package, nat>, visited: set<Package>,
                   queue: Queue, p: Package, depth: nat, handled: set<Package>)
    requires Busy(g, target, limit, max, depthOf, visited, queue, p, depth, handled)
    requires depth >= limit || handled == Next(g, p)
    ensures Idle(g, target, limit, max, depthOf, visited, queue)
  {
    RestLayered(depthOf, queue, depth);
    ExpandedKeeps(g, limit, depthOf, queue, p);
  }

  lemma BusyPush(g: Graph, target: Package, limit: nat, max: nat, depthOf: map<Package, nat>, visited: set<Package>,
                 queue: Queue, p: Package, depth: nat, handled: set<Package>, q: Package)
    requires Busy(g, target, limit, max, depthOf, visited, queue, p, depth, handled)
    requires depth < limit && q in Next(g, p) && q !in visited && |visited| < max
    ensures Busy(g, target, limit, max, depthOf[q := depth + 1], visited + {q}, queue + [(q, depth + 1)], p, depth, handled + {q})
  {
    hide Depths, Layered, Expanded, Marked;
    PushDepths(g, target, limit, depthOf, p, q);
    PushLayered(depthOf, queue, depth, q);
    PushExpanded(g, limit, depthOf, queue, p, q, depth + 1);
    MarkedStays(depthOf, handled, depth, q, depth + 1);
    assert depthOf[q := depth + 1].Keys == depthOf.Keys + {q};
  }

  lemma BusySkip(g: Graph, target: Package, limit: nat, max: nat, depthOf: map<Package, nat>, visited: set<Package>,
                 queue: Queue, p: Package, depth: nat, handled: set<Package>, q: Package)
    requires Busy(g, target, limit, max, depthOf, visited, queue, p, depth, handled) && q in visited
    ensures Busy(g, target, limit, max, depthOf, visited, queue, p, depth, handled + {q})
  {}

  /** A package left out because the frontier is full shows that the ball is larger. */
  lemma FullMeansLarger(g: Graph, target: Package, limit: nat, depthOf: map<Package, nat>, p: Package, q: Package)
    requires Depths(g, target, limit, depthOf)
    requires p in depthOf && depthOf[p] < limit && q in Next(g, p) && q !in depthOf
    ensures depthOf.Keys <= Within(g, {target}, limit) && |depthOf.Keys| < |Within(g, {target}, limit)|
  {
    VisitedWithin(g, target, limit, depthOf);
    NextIsWithin(g, {target}, depthOf[p], limit, p, q);
    ProperSize(depthOf.Keys, Within(g, {target}, limit), q);
  }

  lemma NotQueued(depthOf: map<Package, nat>, queue: Queue, low: nat, p: Package)
    requires Layered(depthOf, queue, low) && p in depthOf && depthOf[p] < low
    ensures (p, depthOf[p]) !in queue
  {}

  /** While a package is expanded, everything as near as it has been marked. */
  lemma BusyIsNearest(g: Graph, target: Package, limit: nat, max: nat, depthOf: map<Package, nat>, visited: set<Package>,
                      queue: Queue, p: Package, depth: nat, handled: set<Package>)
    requires Busy(g, target, limit, max, depthOf, visited, queue, p, depth, handled) && depth < limit
    ensures NearestFirst(g, {target}, depth + 1, visited)
  {
    forall x, y | x in depthOf && depthOf[x] < depth && y in Next(g, x) ensures y in depthOf && depthOf[y] <= depthOf[x] + 1 {
      NotQueued(depthOf, queue, depth, x);
    }
    DepthsCover(g, {target}, depth, depthOf, depth);
    forall x | x in depthOf ensures x in Within(g, {target}, depth + 1) {
      WithinGrows(g, {target}, depthOf[x], depth + 1);
    }
  }

  lemma TargetMarked(g: Graph, target: Package, limit: nat, depthOf: map<Package, nat>)
    requires Depths(g, target, limit, depthOf)
    ensures target in depthOf
  {}

  lemma BusyIsCut(g: Graph, target: Package, limit: nat, max: nat, depthOf: map<Package, nat>, visited: set<Package>,
                  queue: Queue, p: Package, depth: nat, handled: set<Package>, q: Package)
    requires Busy(g, target, limit, max, depthOf, visited, queue, p, depth, handled) && depth < limit
    requires |visited| >= max && q in Next(g, p) && q !in visited
    ensures CutBall(g, target, limit, max, visited, true)
  {
    hide NearestFirst, Within, CutBall, Depths, Layered, Expanded, Marked, Next;
    assert target in visited by { TargetMarked(g, target, limit, depthOf); }
    FullMeansLarger(g, target, limit, depthOf, p, q);
    BusyIsNearest(g, target, limit, max, depthOf, visited, queue, p, depth, handled);
    FullIsCut(g, target, limit, max, visited, depth + 1);
  }

  /** The inner loop: marks and queues the dependents of a popped package. */
  method ExpandDependents(reverseEdges: Graph, ghost target: Package, ghost reverseDepth: nat, maxFrontier: nat,
                          dependency: Package, depth: nat, visited0: set<Package>, queue0: Queue, ghost depthOf0: map<Package, nat>)
    returns (visited: set<Package>, queue: Queue, truncated: bool, ghost depthOf: map<Package, nat>)
    requires Busy(reverseEdges, target, reverseDepth, maxFrontier, depthOf0, visited0, queue0, dependency, depth, {})
    requires depth < reverseDepth && dependency in reverseEdges
    ensures visited0 <= visited && (visited == visited0 ==> queue == queue0) && visited == depthOf.Keys
    ensures !truncated ==>
      Busy(reverseEdges, target, reverseDepth, maxFrontier, depthOf, visited, queue, dependency, depth, Next(reverseEdges, dependency))
    ensures truncated ==>
      CutBall(reverseEdges, target, reverseDepth, maxFrontier, visited, true)
    ensures Depths(reverseEdges, target, reverseDepth, depthOf)
  {
    hide Depths, Layered, Expanded;
    visited, queue, truncated, depthOf := visited0, queue0, false, depthOf0;
    var remaining := reverseEdges[dependency];
    ghost var handled: set<Package> := {};
    while remaining != {}
      invariant handled + remaining == Next(reverseEdges, dependency)
      invariant visited0 <= visited && (visited == visited0 ==> queue == queue0)
      invariant Busy(reverseEdges, target, reverseDepth, maxFrontier, depthOf, visited, queue, dependency, depth, handled)
      decreases remaining
    {
      var dependent :| dependent in remaining;
      if |visited| >= maxFrontier && dependent !in visited {
        BusyIsCut(reverseEdges, target, reverseDepth, maxFrontier, depthOf, visited, queue, dependency, depth, handled, dependent);
        truncated := true;
        return;
      }
      if dependent !in visited {
        BusyPush(reverseEdges, target, reverseDepth, maxFrontier, depthOf, visited, queue, dependency, depth, handled, dependent);
        visited := visited + {dependent};
        depthOf := depthOf[dependent := depth + 1];
        queue := queue + [(dependent, depth + 1)];
      } else {
        BusySkip(reverseEdges, target, reverseDepth, maxFrontier, depthOf, visited, queue, dependency, depth, handled, dependent);
      }
      remaining, handled := remaining - {dependent}, handled + {dependent};
    }
  }

  lemma SearchStarts(g: Graph, target: Package, limit: nat, max: nat)
    requires max > 0
    ensures Idle(g, target, limit, max, map[target := 0], {target}, [(target, 0)])
  {}

  lemma SearchEnds(g: Graph, target: Package, limit: nat, max: nat, depthOf: map<Package, nat>, visited: set<Package>)
    requires Idle(g, target, limit, max, depthOf, visited, [])
    ensures CutBall(g, target, limit, max, visited, false)
  {
    EmptyQueueIsComplete(g, target, limit, depthOf);
    WholeBallIsCut(g, target, limit, max, visited);
  }

  /** Visits the ball around the target, or as much of it as the frontier holds, nearest first. */
  method FocusFrontier(reverseEdges: Graph, target: Package, reverseDepth: nat, maxFrontier: nat)
    returns (visited: set<Package>, truncated: bool)
    requires maxFrontier > 0
    ensures CutBall(reverseEdges, target, reverseDepth, maxFrontier, visited, truncated)
  {
    hide Idle, Busy, Depths, Layered, Expanded, Marked, Within, CutBall;
    ghost var ball := Within(reverseEdges, {target}, reverseDepth);
    ghost var depthOf: map<Package, nat> := map[target := 0];
    visited := {target};
    var queue: Queue := [(target, 0)];
    truncated := false;
    SearchStarts(reverseEdges, target, reverseDepth, maxFrontier);
    while queue != []
      invariant !truncated
      invariant Idle(reverseEdges, target, reverseDepth, maxFrontier, depthOf, visited, queue)
      decreases |ball - visited|, |queue|
    {
      var (dependency, depth) := queue[0];
      PopIsBusy(reverseEdges, target, reverseDepth, maxFrontier, depthOf, visited, queue);
      queue := queue[1..];
      if depth >= reverseDepth {
        BusyIsIdle(reverseEdges, target, reverseDepth, maxFrontier, depthOf, visited, queue, dependency, depth, {});
        continue;
      }
      if dependency !in reverseEdges {
        BusyIsIdle(reverseEdges, target, reverseDepth, maxFrontier, depthOf, visited, queue, dependency, depth, {});
        continue;
      }
      ghost var before := visited;
      visited, queue, truncated, depthOf :=
        ExpandDependents(reverseEdges, target, reverseDepth, maxFrontier, dependency, depth, visited, queue, depthOf);
      if truncated {
        return;
      }
      BusyIsIdle(reverseEdges, target, reverseDepth, maxFrontier, depthOf, visited, queue, dependency, depth, Next(reverseEdges, dependency));
      VisitedWithin(reverseEdges, target, reverseDepth, depthOf);
      LeftShrinks(ball, before, visited);
    }
    SearchEnds(reverseEdges, target, reverseDepth, maxFrontier, depthOf, visited);
  }

  // ----- rows in, records out

  datatype Ecosystem = Npm | Pypi | CratesIo

  /** A row of the export; a system that is not tracked has no ecosystem. */
  datatype Row = Row(
    system: Option<Ecosystem>, dependentSystem: Option<Ecosystem>,
    name: Package, dependent: Package, minimumDepth: Option<nat>, isHighest: Option<bool>)

  predicate Matches(row: Row, ecosystem: Ecosystem, includeNonHighest: bool) {
    && row.system == Some(ecosystem) && row.dependentSystem == Some(ecosystem)
    && row.minimumDepth == Some(1)
    && (includeNonHighest || row.isHighest != Some(false))
  }

  /** `dependent` depends directly on `name` according to some row that counts. */
  ghost predicate Reported(rows: seq<Row>, ecosystem: Ecosystem, includeNonHighest: bool, name: Package, dependent: Package) {
    exists i :: 0 <= i < |rows| && Reports(rows[i], ecosystem, includeNonHighest, name, dependent)
  }

  predicate Reports(row: Row, ecosystem: Ecosystem, includeNonHighest: bool, name: Package, dependent: Package) {
    name != dependent && Matches(row, ecosystem, includeNonHighest) && row.name == name && row.dependent == dependent
  }

  lemma ReportedSnoc(rows: seq<Row>, n: nat, ecosystem: Ecosystem, includeNonHighest: bool, name: Package, dependent: Package)
    requires n < |rows|
    ensures Reported(rows[..n + 1], ecosystem, includeNonHighest, name, dependent)
      <==> (Reported(rows[..n], ecosystem, includeNonHighest, name, dependent) || Reports(rows[n], ecosystem, includeNonHighest, name, dependent))
  {
    assert rows[..n + 1] == rows[..n] + [rows[n]];
    if Reported(rows[..n], ecosystem, includeNonHighest, name, dependent) {
      var i :| 0 <= i < n && Reports(rows[..n][i], ecosystem, includeNonHighest, name, dependent);
      assert rows[..n + 1][i] == rows[i];
    }
    assert rows[..n + 1][n] == rows[n];
  }

  /** The reverse edges are those the rows report. */
  method CollectReverseEdges(rows: seq<Row>, ecosystem: Ecosystem, includeNonHighest: bool)
    returns (reverseEdges: Graph)
    ensures forall p, q :: q in Next(reverseEdges, p) <==> Reported(rows, ecosystem, includeNonHighest, p, q)
  {
    reverseEdges := map[];
    for n := 0 to |rows|
      invariant forall p, q :: q in Next(reverseEdges, p) <==> Reported(rows[..n], ecosystem, includeNonHighest, p, q)
    {
      var row := rows[n];
      forall p, q {
        ReportedSnoc(rows, n, ecosystem, includeNonHighest, p, q);
      }
      if row.system == None || row.dependentSystem == None { continue; }
      if row.system.value != ecosystem || row.dependentSystem.value != ecosystem { continue; }
      if row.minimumDepth != Some(1) { continue; }
      if !includeNonHighest && row.isHighest == Some(false) { continue; }
      if row.name == row.dependent { continue; }
      ghost var before := reverseEdges;
      reverseEdges := reverseEdges[row.name := Next(reverseEdges, row.name) + {row.dependent}];
      assert forall p, q :: q in Next(reverseEdges, p) <==> q in Next(before, p) || Reports(row, ecosystem, includeNonHighest, p, q);
    }
    assert rows[..|rows|] == rows;
  }

  /** The edges of the graph with both ends visited, as (dependent, dependency). */
  ghost predicate Induced(g: Graph, visited: set<Package>, edge: (Package, Package)) {
    edge.0 in visited && edge.1 in visited && edge.0 in Next(g, edge.1)
  }

  /** The dependency records: every induced edge once. */
  method EmitEdges(reverseEdges: Graph, visited: set<Package>) returns (edges: seq<(Package, Package)>)
    ensures Distinct(edges)
    ensures forall e :: e in edges <==> Induced(reverseEdges, visited, e)
  {
    edges := [];
    var left := visited;
    while left != {}
      invariant left <= visited && Distinct(edges)
      invariant forall e :: e in edges <==> Induced(reverseEdges, visited, e) && e.1 !in left
      decreases left
    {
      var dependency :| dependency in left;
      left := left - {dependency};
      var dependents := Next(reverseEdges, dependency);
      while dependents != {}
        invariant dependents <= Next(reverseEdges, dependency) && Distinct(edges)
        invariant forall e :: e in edges <==>
          Induced(reverseEdges, visited, e) && e.1 !in left && (e.1 == dependency ==> e.0 !in dependents)
        decreases dependents
      {
        var dependent :| dependent in dependents;
        dependents := dependents - {dependent};
        if dependent in visited {
          edges := edges + [(dependent, dependency)];
        }
      }
    }
  }

  datatype Focus = Focus(visited: set<Package>, edges: seq<(Package, Package)>, truncated: bool)

  /** What the search promises for a graph: the ball cut to the frontier size, nearest
      packages first and each but the target next to another, with exactly the edges between
      the packages it kept. */
  ghost predicate IsFocus(g: Graph, target: Package, reverseDepth: nat, maxFrontier: nat, f: Focus) {
    && CutBall(g, target, reverseDepth, maxFrontier, f.visited, f.truncated)
    && Distinct(f.edges) && (forall e :: e in f.edges <==> Induced(g, f.visited, e))
  }

  /** The rows' graph, the search over it, and the records it emits. */
  method FocusDependentsSubgraph(rows: seq<Row>, ecosystem: Ecosystem, includeNonHighest: bool, target: Package,
                                 reverseDepth: nat, maxFrontier: nat) returns (r: Result<Focus>, ghost g: Graph)
    ensures r.Err? <==> maxFrontier == 0
    ensures forall p, q :: q in Next(g, p) <==> Reported(rows, ecosystem, includeNonHighest, p, q)
    ensures r.Ok? ==> IsFocus(g, target, reverseDepth, maxFrontier, r.value)
  {
    var reverseEdges := CollectReverseEdges(rows, ecosystem, includeNonHighest);
    g := reverseEdges;
    if maxFrontier == 0 { return Err, g; }
    var visited, truncated := FocusFrontier(reverseEdges, target, reverseDepth, maxFrontier);
    var edges := EmitEdges(reverseEdges, visited);
    r := Ok(Focus(visited, edges, truncated));
  }

  /** When the ball fits, the result is the whole ball and does not depend on the order in
      which packages and dependents were visited. */
  lemma UntruncatedFocusUnique(g: Graph, target: Package, reverseDepth: nat, maxFrontier: nat, f: Focus, h: Focus)
    requires IsFocus(g, target, reverseDepth, maxFrontier, f) && IsFocus(g, target, reverseDepth, maxFrontier, h)
    requires !f.truncated
    ensures f.visited == h.visited == Within(g, {target}, reverseDepth) && !h.truncated
    ensures multiset(f.edges) == multiset(h.edges)
  {
    var ball := Within(g, {target}, reverseDepth);
    SubsetSize(f.visited, ball);
    SubsetSize(h.visited, ball);
    DistinctSame(f.edges, h.edges);
  }
}
