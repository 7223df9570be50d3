/** The focus search over local graph records: breadth first, marking packages when popped. */
module LocalFocus {
  import opened Ball
  import opened Sequences

  type Queue = seq<(Package, nat)>

  /** What is searched, and the balls of radius 0 up to the limit. The invariants speak of
      these sets, so that the definition of a ball matters only where a package is reached. */
  datatype Task = Task(g: Graph, target: Package, limit: nat, max: nat, balls: seq<set<Package>>) {
    ghost predicate Valid() {
      |balls| == limit + 1 && forall r :: 0 <= r <= limit ==> balls[r] == Within(g, {target}, r)
    }
  }

  ghost predicate Reached(balls: seq<set<Package>>, p: Package, depth: nat) {
    depth < |balls| && p in balls[depth]
  }

  ghost predicate Depths(balls: seq<set<Package>>, target: Package, depthOf: map<Package, nat>) {
    forall p :: p in depthOf ==> Reached(balls, p, depthOf[p]) && (p == target ==> depthOf[p] == 0)
  }

  /** The queue is in order of depth, over at most two depths, none below a marked package. */
  ghost predicate Layered(balls: seq<set<Package>>, depthOf: map<Package, nat>, queue: Queue, low: nat) {
    && (forall i :: 0 <= i < |queue| ==> low <= queue[i].1 <= low + 1 && Reached(balls, queue[i].0, queue[i].1))
    && (forall i, j :: 0 <= i < j < |queue| ==> queue[i].1 <= queue[j].1)
    && (forall p :: p in depthOf ==> depthOf[p] <= low)
  }

  /** `q` is marked no deeper than `depth`, or queued at that depth. */
  ghost predicate Handled(depthOf: map<Package, nat>, queue: Queue, q: Package, depth: nat) {
    (q in depthOf && depthOf[q] <= depth) || (q, depth) in queue
  }

  ghost predicate AllHandled(depthOf: map<Package, nat>, queue: Queue, next: set<Package>, depth: nat) {
    forall q :: q in next ==> Handled(depthOf, queue, q, depth)
  }

  ghost predicate Expanded(g: Graph, limit: nat, depthOf: map<Package, nat>, queue: Queue, besides: set<Package>) {
    forall p :: p in depthOf && depthOf[p] < limit && p !in besides ==> AllHandled(depthOf, queue, Next(g, p), depthOf[p] + 1)
  }

  /** At most this deep, the packages nearer than the parent left room for more. */
  predicate Early(t: Task, depth: nat) {
    && (depth >= 1 ==> t.max > 1)
    && (depth >= 2 ==> depth - 2 < |t.balls| && |t.balls[depth - 2]| + 1 < t.max)
  }

  /** What is marked or still to be marked was queued while there was room. */
  ghost predicate Timely(t: Task, depthOf: map<Package, nat>, queue: Queue) {
    && (forall p :: p in depthOf ==> Early(t, depthOf[p]))
    && (forall i :: 0 <= i < |queue| ==> queue[i].0 in depthOf || Early(t, queue[i].1))
  }

  /** Between two iterations: the target is marked, or is all there is to visit. */
  ghost predicate Idle(t: Task, depthOf: map<Package, nat>, queue: Queue) {
    && Depths(t.balls, t.target, depthOf)
    && (queue != [] ==> Layered(t.balls, depthOf, queue, queue[0].1))
    && Expanded(t.g, t.limit, depthOf, queue, {})
    && Timely(t, depthOf, queue)
    && (t.target in depthOf || (depthOf == map[] && queue == [(t.target, 0)]))
  }

  /** Marking the popped package, or finding it marked no deeper, keeps what is handled. */
  lemma PopHandled(depthOf: map<Package, nat>, marked: map<Package, nat>, queue: Queue, next: set<Package>, depth: nat)
    requires queue != [] && AllHandled(depthOf, queue, next, depth)
    requires forall p :: p in depthOf ==> p in marked && marked[p] == depthOf[p]
    requires queue[0].0 in marked && marked[queue[0].0] <= queue[0].1
    ensures AllHandled(marked, queue[1..], next, depth)
  {
    forall q | q in next ensures Handled(marked, queue[1..], q, depth) {
      assert Handled(depthOf, queue, q, depth);
      InCons(queue[0], queue[1..], (q, depth));
      assert [queue[0]] + queue[1..] == queue;
    }
  }

  lemma PopExpanded(g: Graph, limit: nat, depthOf: map<Package, nat>, marked: map<Package, nat>, queue: Queue)
    requires queue != [] && Expanded(g, limit, depthOf, queue, {})
    requires marked == depthOf || (queue[0].0 !in depthOf && marked == depthOf[queue[0].0 := queue[0].1])
    requires queue[0].0 in marked && marked[queue[0].0] <= queue[0].1
    ensures Expanded(g, limit, marked, queue[1..], if marked == depthOf then {} else {queue[0].0})
  {
    forall p | p in marked && marked[p] < limit && p !in (if marked == depthOf then {} else {queue[0].0})
      ensures AllHandled(marked, queue[1..], Next(g, p), marked[p] + 1)
    {
      PopHandled(depthOf, marked, queue, Next(g, p), marked[p] + 1);
    }
  }

  lemma PushHandled(depthOf: map<Package, nat>, queue: Queue, next: set<Package>, depth: nat, q: Package)
    requires AllHandled(depthOf, queue, next, depth)
    ensures AllHandled(depthOf, queue + [(q, depth)], next + {q}, depth)
  {
    forall x | x in next + {q} ensures Handled(depthOf, queue + [(q, depth)], x, depth) {
      InSnoc(queue, (q, depth), (x, depth));
    }
  }

  lemma PushExpanded(g: Graph, limit: nat, depthOf: map<Package, nat>, queue: Queue, besides: set<Package>, e: (Package, nat))
    requires Expanded(g, limit, depthOf, queue, besides)
    ensures Expanded(g, limit, depthOf, queue + [e], besides)
  {
    forall p | p in depthOf && depthOf[p] < limit && p !in besides
      ensures AllHandled(depthOf, queue + [e], Next(g, p), depthOf[p] + 1)
    {
      forall x | x in Next(g, p) ensures Handled(depthOf, queue + [e], x, depthOf[p] + 1) {
        assert Handled(depthOf, queue, x, depthOf[p] + 1);
        InSnoc(queue, e, (x, depthOf[p] + 1));
      }
    }
  }

  lemma PushLayered(t: Task, depthOf: map<Package, nat>, queue: Queue, low: nat, p: Package, q: Package)
    requires t.Valid() && Layered(t.balls, depthOf, queue, low)
    requires Reached(t.balls, p, low) && low < t.limit && q in Next(t.g, p)
    ensures Layered(t.balls, depthOf, queue + [(q, low + 1)], low)
  {
    WithinStep(t.g, {t.target}, low, p, q);
    assert Reached(t.balls, q, low + 1);
  }

  lemma DoneExpanding(g: Graph, limit: nat, depthOf: map<Package, nat>, queue: Queue, p: Package)
    requires Expanded(g, limit, depthOf, queue, {p})
    requires p in depthOf && (depthOf[p] < limit ==> AllHandled(depthOf, queue, Next(g, p), depthOf[p] + 1))
    ensures Expanded(g, limit, depthOf, queue, {})
  {}

  lemma Relayer(balls: seq<set<Package>>, depthOf: map<Package, nat>, queue: Queue, low: nat)
    requires Layered(balls, depthOf, queue, low)
    ensures queue != [] ==> Layered(balls, depthOf, queue, queue[0].1)
  {}

  lemma VisitedWithin(t: Task, depthOf: map<Package, nat>, radius: nat)
    requires t.Valid() && Depths(t.balls, t.target, depthOf)
    requires forall p :: p in depthOf ==> depthOf[p] <= radius
    ensures depthOf.Keys <= Within(t.g, {t.target}, radius)
  {
    forall p | p in depthOf ensures p in Within(t.g, {t.target}, radius) {
      assert Reached(t.balls, p, depthOf[p]);
      WithinGrows(t.g, {t.target}, depthOf[p], radius);
    }
  }

  /** The search stopped at `p`: everything nearer is visited, nothing farther, and the
      dependent `q` is left out. */
  ghost predicate StoppedAt(g: Graph, target: Package, limit: nat, visited: set<Package>, depth: nat, p: Package, q: Package) {
    && depth < limit && visited <= Within(g, {target}, depth)
    && p in visited && q in Next(g, p) && q !in visited
    && (depth == 0 ==> p == target)
    && (depth > 0 ==> Within(g, {target}, depth - 1) <= visited - {p})
  }

  /** The search goes at most one step past the radius at which one package more reaches
      the limit. */
  ghost predicate NotFarther(g: Graph, target: Package, max: nat, visited: set<Package>) {
    && (max <= 1 ==> visited <= {target})
    && (forall d: nat :: max <= |Within(g, {target}, d)| + 1 ==> visited <= Within(g, {target}, d + 1))
  }

  /** What the search promises. */
  ghost predicate IsLocalFocus(g: Graph, target: Package, limit: nat, max: nat, visited: set<Package>, truncated: bool) {
    && target in visited && NotFarther(g, target, max, visited)
    && (!truncated ==> visited == Within(g, {target}, limit))
    && (truncated ==> max <= |visited| && exists depth, p, q :: StoppedAt(g, target, limit, visited, depth, p, q))
  }

  /** While `p` is expanded, with the dependents in `handled` queued. */
  ghost predicate Busy(t: Task, depthOf: map<Package, nat>, queue: Queue, p: Package, handled: set<Package>) {
    && Depths(t.balls, t.target, depthOf) && t.target in depthOf && p in depthOf
    && Layered(t.balls, depthOf, queue, depthOf[p])
    && Expanded(t.g, t.limit, depthOf, queue, {p})
    && AllHandled(depthOf, queue, handled, depthOf[p] + 1)
    && Timely(t, depthOf, queue)
  }

  lemma TimelyNotFarther(t: Task, depthOf: map<Package, nat>, queue: Queue)
    requires t.Valid() && Depths(t.balls, t.target, depthOf) && Timely(t, depthOf, queue)
    ensures NotFarther(t.g, t.target, t.max, depthOf.Keys)
  {
    hide Within;
    forall p | p in depthOf && t.max <= 1 ensures p == t.target {
      assert Early(t, depthOf[p]) && Reached(t.balls, p, 0);
      StartBall(t);
    }
    forall d: nat, p | p in depthOf && t.max <= |Within(t.g, {t.target}, d)| + 1 ensures p in Within(t.g, {t.target}, d + 1) {
      assert Early(t, depthOf[p]) && Reached(t.balls, p, depthOf[p]);
      if depthOf[p] > d + 1 {
        WithinGrows(t.g, {t.target}, d, depthOf[p] - 2);
        SubsetSize(Within(t.g, {t.target}, d), Within(t.g, {t.target}, depthOf[p] - 2));
        assert false;
      }
      WithinGrows(t.g, {t.target}, depthOf[p], d + 1);
    }
  }

  lemma StartBall(t: Task)
    requires t.Valid()
    ensures t.balls[0] == {t.target}
  {}

  lemma EmptyQueueIsComplete(t: Task, depthOf: map<Package, nat>)
    requires t.Valid() && Idle(t, depthOf, [])
    ensures IsLocalFocus(t.g, t.target, t.limit, t.max, depthOf.Keys, false)
  {
    TimelyNotFarther(t, depthOf, []);
    VisitedWithin(t, depthOf, t.limit) by {
      forall p | p in depthOf ensures depthOf[p] <= t.limit { assert Reached(t.balls, p, depthOf[p]); }
    }
    forall p, q | p in depthOf && depthOf[p] < t.limit && q in Next(t.g, p) ensures q in depthOf && depthOf[q] <= depthOf[p] + 1 {
      assert Handled(depthOf, [], q, depthOf[p] + 1);
    }
    DepthsCover(t.g, {t.target}, t.limit, depthOf, t.limit);
  }

  lemma NearerExpanded(t: Task, depthOf: map<Package, nat>, queue: Queue, p: Package, handled: set<Package>, x: Package, q: Package)
    requires t.Valid() && Busy(t, depthOf, queue, p, handled)
    requires x in depthOf && depthOf[x] + 1 < depthOf[p] && q in Next(t.g, x)
    ensures q in depthOf && depthOf[q] <= depthOf[x] + 1
  {
    hide Timely;
    assert Reached(t.balls, p, depthOf[p]);
    assert AllHandled(depthOf, queue, Next(t.g, x), depthOf[x] + 1);
    assert Handled(depthOf, queue, q, depthOf[x] + 1);
  }

  /** Everything nearer than the package under expansion is visited. */
  lemma NearerVisited(t: Task, depthOf: map<Package, nat>, queue: Queue, p: Package, handled: set<Package>)
    requires t.Valid() && Busy(t, depthOf, queue, p, handled) && depthOf[p] > 0
    ensures Within(t.g, {t.target}, depthOf[p] - 1) <= depthOf.Keys - {p}
  {
    hide Timely, Within, Layered, Expanded, AllHandled, Task.Valid;
    var low := depthOf[p];
    forall x, q | x in depthOf && depthOf[x] < low - 1 && q in Next(t.g, x) ensures q in depthOf && depthOf[q] <= depthOf[x] + 1 {
      NearerExpanded(t, depthOf, queue, p, handled, x, q);
    }
    TargetIsMarked(t, depthOf, queue, p, handled);
    DepthsCover(t.g, {t.target}, low - 1, depthOf, low - 1);
  }

  lemma TargetIsMarked(t: Task, depthOf: map<Package, nat>, queue: Queue, p: Package, handled: set<Package>)
    requires Busy(t, depthOf, queue, p, handled)
    ensures t.target in depthOf && depthOf[t.target] == 0
  {}

  lemma RoomIsEarly(t: Task, depthOf: map<Package, nat>, queue: Queue, p: Package, handled: set<Package>)
    requires t.Valid() && Busy(t, depthOf, queue, p, handled) && depthOf[p] < t.limit && |depthOf.Keys| < t.max
    ensures Early(t, depthOf[p] + 1)
  {
    assert p in depthOf.Keys;
    if depthOf[p] > 0 {
      NearerVisited(t, depthOf, queue, p, handled);
      var near := Within(t.g, {t.target}, depthOf[p] - 1);
      ProperSize(near, depthOf.Keys, p);
      assert t.balls[depthOf[p] - 1] == near;
    }
  }

  lemma BusyIsIdle(t: Task, depthOf: map<Package, nat>, queue: Queue, p: Package, handled: set<Package>)
    requires Busy(t, depthOf, queue, p, handled)
    requires depthOf[p] >= t.limit || handled == Next(t.g, p)
    ensures Idle(t, depthOf, queue)
  {
    DoneExpanding(t.g, t.limit, depthOf, queue, p);
    Relayer(t.balls, depthOf, queue, depthOf[p]);
  }

  lemma PushTimely(t: Task, depthOf: map<Package, nat>, queue: Queue, q: Package, depth: nat)
    requires Timely(t, depthOf, queue) && (q in depthOf || Early(t, depth))
    ensures Timely(t, depthOf, queue + [(q, depth)])
  {}

  lemma BusyPush(t: Task, depthOf: map<Package, nat>, queue: Queue, p: Package, handled: set<Package>, q: Package)
    requires t.Valid() && Busy(t, depthOf, queue, p, handled) && depthOf[p] < t.limit && q in Next(t.g, p)
    requires q in depthOf || |depthOf.Keys| < t.max
    ensures Busy(t, depthOf, queue + [(q, depthOf[p] + 1)], p, handled + {q})
  {
    hide Layered, Expanded, Depths, AllHandled, Timely, Early, Reached, Next, Task.Valid;
    BusyReached(t, depthOf, queue, p, handled);
    if q !in depthOf { RoomIsEarly(t, depthOf, queue, p, handled); }
    PushTimely(t, depthOf, queue, q, depthOf[p] + 1);
    PushLayered(t, depthOf, queue, depthOf[p], p, q);
    PushExpanded(t.g, t.limit, depthOf, queue, {p}, (q, depthOf[p] + 1));
    PushHandled(depthOf, queue, handled, depthOf[p] + 1, q);
  }

  lemma BusyReached(t: Task, depthOf: map<Package, nat>, queue: Queue, p: Package, handled: set<Package>)
    requires Busy(t, depthOf, queue, p, handled)
    ensures Reached(t.balls, p, depthOf[p])
  {}

  /** The check that stops the search can only fire while some package is left out. */
  lemma StopIsPartial(t: Task, depthOf: map<Package, nat>, queue: Queue, p: Package, handled: set<Package>, q: Package)
    requires t.Valid() && Busy(t, depthOf, queue, p, handled) && depthOf[p] < t.limit
    requires q in Next(t.g, p) && q !in depthOf && |depthOf.Keys| >= t.max
    ensures IsLocalFocus(t.g, t.target, t.limit, t.max, depthOf.Keys, true)
  {
    var depth := depthOf[p];
    TimelyNotFarther(t, depthOf, queue);
    assert Reached(t.balls, p, depth);
    VisitedWithin(t, depthOf, depth);
    if depth > 0 { NearerVisited(t, depthOf, queue, p, handled); } else { StartBall(t); }
    assert StoppedAt(t.g, t.target, t.limit, depthOf.Keys, depth, p, q);
  }

  lemma BusyWithin(t: Task, depthOf: map<Package, nat>, queue: Queue, p: Package)
    requires t.Valid() && Busy(t, depthOf, queue, p, {})
    ensures depthOf.Keys <= Within(t.g, {t.target}, t.limit)
  {
    assert Reached(t.balls, p, depthOf[p]);
    VisitedWithin(t, depthOf, t.limit);
  }

  method LocalFocusFrontier(reverseEdges: Graph, target: Package, reverseDepth: nat, maxFrontier: nat)
    returns (visited: set<Package>, truncated: bool)
    ensures IsLocalFocus(reverseEdges, target, reverseDepth, maxFrontier, visited, truncated)
  {
    hide Layered, Expanded, Depths, AllHandled, Timely, Idle, IsLocalFocus, Within, Task.Valid;
    ghost var t := TaskOf(reverseEdges, target, reverseDepth, maxFrontier);
    ghost var ball := Within(reverseEdges, {target}, reverseDepth);
    ghost var depthOf: map<Package, nat> := map[];
    visited := {};
    var queue: Queue := [(target, 0)];
    truncated := false;
    StartIsIdle(t);
    while queue != []
      invariant !truncated && visited == depthOf.Keys
      invariant Idle(t, depthOf, queue)
      decreases |ball - visited|, |queue|
    {
      var (dependency, depth) := queue[0];
      if dependency in visited {
        PopMarked(t, depthOf, queue);
        queue := queue[1..];
        continue;
      }
      PopNew(t, depthOf, queue);
      ghost var before := visited;
      depthOf := depthOf[dependency := depth];
      visited := visited + {dependency};
      queue := queue[1..];
      BusyWithin(t, depthOf, queue, dependency);
      LeftShrinks(ball, before, visited);
      if depth >= reverseDepth || dependency !in reverseEdges {
        BusyIsIdle(t, depthOf, queue, dependency, {});
        continue;
      }
      queue, truncated := QueueDependents(t, reverseEdges, maxFrontier, dependency, depth, visited, queue, depthOf);
      if truncated { return; }
    }
    EmptyQueueIsComplete(t, depthOf);
  }

  ghost function TaskOf(g: Graph, target: Package, limit: nat, max: nat): (t: Task)
    ensures t.Valid() && t.g == g && t.target == target && t.limit == limit && t.max == max
  {
    Task(g, target, limit, max, seq(limit + 1, r requires r >= 0 => Within(g, {target}, r)))
  }

  lemma StartIsIdle(t: Task)
    requires t.Valid()
    ensures Idle(t, map[], [(t.target, 0)])
  {
    assert t.balls[0] == {t.target};
    assert Reached(t.balls, t.target, 0);
  }

  /** The inner loop: every dependent is queued, visited or not, until the check stops it. */
  method QueueDependents(ghost t: Task, reverseEdges: Graph, maxFrontier: nat, dependency: Package, depth: nat,
                         visited: set<Package>, queue0: Queue, ghost depthOf: map<Package, nat>)
    returns (queue: Queue, truncated: bool)
    requires t.Valid() && t.g == reverseEdges && t.max == maxFrontier
    requires dependency in reverseEdges && depth < t.limit && visited == depthOf.Keys
    requires Busy(t, depthOf, queue0, dependency, {}) && depthOf[dependency] == depth
    ensures truncated ==> IsLocalFocus(t.g, t.target, t.limit, t.max, visited, true)
    ensures !truncated ==> Idle(t, depthOf, queue)
  {
    hide Layered, Expanded, Depths;
    queue, truncated := queue0, false;
    var remaining := reverseEdges[dependency];
    ghost var handled: set<Package> := {};
    while remaining != {}
      invariant handled + remaining == Next(reverseEdges, dependency)
      invariant Busy(t, depthOf, queue, dependency, handled)
      decreases remaining
    {
      var dependent :| dependent in remaining;
      if |visited| >= maxFrontier && dependent !in visited {
        StopIsPartial(t, depthOf, queue, dependency, handled, dependent);
        truncated := true;
        return;
      }
      BusyPush(t, depthOf, queue, dependency, handled, dependent);
      queue := queue + [(dependent, depth + 1)];
      remaining, handled := remaining - {dependent}, handled + {dependent};
    }
    BusyIsIdle(t, depthOf, queue, dependency, handled);
  }

  lemma PopMarked(t: Task, depthOf: map<Package, nat>, queue: Queue)
    requires Idle(t, depthOf, queue) && queue != [] && queue[0].0 in depthOf
    ensures Idle(t, depthOf, queue[1..])
  {
    PopExpanded(t.g, t.limit, depthOf, depthOf, queue);
  }

  lemma PopNew(t: Task, depthOf: map<Package, nat>, queue: Queue)
    requires Idle(t, depthOf, queue) && queue != [] && queue[0].0 !in depthOf
    ensures Busy(t, depthOf[queue[0].0 := queue[0].1], queue[1..], queue[0].0, {})
  {
    PopExpanded(t.g, t.limit, depthOf, depthOf[queue[0].0 := queue[0].1], queue);
  }

  // ----- what the frontier limit bounds

  /** A search that was stopped has visited less than the ball, and nothing on its rim. */
  lemma StoppedIsPartial(g: Graph, target: Package, limit: nat, max: nat, visited: set<Package>)
    requires IsLocalFocus(g, target, limit, max, visited, true)
    ensures limit > 0 && visited <= Within(g, {target}, limit - 1)
    ensures max <= |visited| < |Within(g, {target}, limit)|
  {
    hide Within, NotFarther;
    var depth, p, q :| StoppedAt(g, target, limit, visited, depth, p, q);
    WithinGrows(g, {target}, depth, limit - 1);
    WithinGrows(g, {target}, depth, limit);
    NextIsWithin(g, {target}, depth, limit, p, q);
    ProperSize(visited, Within(g, {target}, limit), q);
  }

  /** The whole ball is visited whenever the packages that get expanded stay below the
      limit. */
  lemma SmallCoreIsComplete(g: Graph, target: Package, limit: nat, max: nat, visited: set<Package>, truncated: bool)
    requires IsLocalFocus(g, target, limit, max, visited, truncated)
    requires limit == 0 || |Within(g, {target}, limit - 1)| < max
    ensures !truncated && visited == Within(g, {target}, limit)
  {
    hide Within, NotFarther;
    if truncated {
      StoppedIsPartial(g, target, limit, max, visited);
      SubsetSize(visited, Within(g, {target}, limit - 1));
    }
  }

  /** The limit bounds what is visited: with a small core exactly when the whole ball fits,
      and otherwise exactly when the search ends at the limit, since it never ends below. */
  lemma BoundHeldIff(g: Graph, target: Package, limit: nat, max: nat, visited: set<Package>, truncated: bool)
    requires IsLocalFocus(g, target, limit, max, visited, truncated)
    ensures limit == 0 || |Within(g, {target}, limit - 1)| < max ==>
      (|visited| <= max <==> |Within(g, {target}, limit)| <= max)
    ensures limit > 0 && |Within(g, {target}, limit - 1)| >= max ==> max <= |visited|
  {
    hide Within, NotFarther;
    if limit == 0 || |Within(g, {target}, limit - 1)| < max {
      SmallCoreIsComplete(g, target, limit, max, visited, truncated);
    } else if !truncated {
      WithinGrows(g, {target}, limit - 1, limit);
      SubsetSize(Within(g, {target}, limit - 1), visited);
    }
  }

  /** However the search ends, it overshoots by no more than the step behind any radius at
      which one package more reaches the limit. */
  lemma OvershootIsOneStep(g: Graph, target: Package, limit: nat, max: nat, visited: set<Package>, truncated: bool, radius: nat)
    requires IsLocalFocus(g, target, limit, max, visited, truncated)
    requires max <= |Within(g, {target}, radius)| + 1
    ensures |visited| <= |Within(g, {target}, radius + 1)|
  {
    hide Within;
    SubsetSize(visited, Within(g, {target}, radius + 1));
  }

  /** Packages 1 to `n`. */
  function Leaves(n: nat): set<Package> { if n == 0 then {} else Leaves(n - 1) + {n} }

  lemma {:induction false} LeavesAre(n: nat, q: Package)
    ensures q in Leaves(n) <==> 1 <= q <= n
  {
    if n > 0 { LeavesAre(n - 1, q); }
  }

  lemma {:induction false} LeavesSize(n: nat)
    ensures |Leaves(n)| == n && |Leaves(n) + {0}| == n + 1
  {
    if n > 0 {
      LeavesSize(n - 1);
      LeavesAre(n - 1, n);
      LeavesAre(n, 0);
      assert 0 !in Leaves(n);
      assert |Leaves(n)| == n;
      assert |{0} + Leaves(n)| == n + 1;
      assert {0} + Leaves(n) == Leaves(n) + {0};
    }
  }

  /** The next ball, given who follows its members. */
  lemma NextBall(g: Graph, sources: set<Package>, radius: nat, near: set<Package>, far: set<Package>)
    requires Within(g, sources, radius) == near && near <= far
    requires forall p :: p in near ==> Next(g, p) <= far
    requires forall q :: q in far && q !in near ==> exists p :: p in near && q in Next(g, p)
    ensures Within(g, sources, radius + 1) == far
  {
    assert near + Neighbours(g, near) == far;
  }

  /** `n` packages that all depend on package 0, and nothing else. */
  function Star(n: nat): Graph { map[0 := Leaves(n)] }

  lemma {:induction false} StarBall(n: nat, radius: nat)
    ensures Within(Star(n), {0}, radius) == if radius == 0 then {0} else Leaves(n) + {0}
  {
    if radius > 0 {
      StarBall(n, radius - 1);
      hide Within, Leaves;
      var near := Within(Star(n), {0}, radius - 1);
      assert Next(Star(n), 0) == Leaves(n);
      forall p | p in near ensures Next(Star(n), p) <= Leaves(n) + {0} {}
      NextBall(Star(n), {0}, radius - 1, near, Leaves(n) + {0});
    }
  }

  /** On a star the search visits everything and reports no truncation, however small the
      limit, as long as it is at least two. With a radius of two or more the core is the
      whole star, so it may be as large as the limit or larger. */
  lemma StarExceedsLimit(n: nat, limit: nat, max: nat, visited: set<Package>, truncated: bool)
    requires max >= 2 && limit >= 1 && IsLocalFocus(Star(n), 0, limit, max, visited, truncated)
    ensures !truncated && |visited| == n + 1
    ensures limit >= 2 ==> |Within(Star(n), {0}, limit - 1)| == n + 1
  {
    hide Within, Leaves, Star, NotFarther, StoppedAt;
    StarBall(n, limit);
    StarBall(n, limit - 1);
    LeavesSize(n);
    if truncated { StarGoesOn(n, limit, max, visited); }
  }

  lemma StarGoesOn(n: nat, limit: nat, max: nat, visited: set<Package>)
    requires max >= 2
    ensures !IsLocalFocus(Star(n), 0, limit, max, visited, true)
  {
    hide Within, NotFarther;
    if IsLocalFocus(Star(n), 0, limit, max, visited, true) {
      var depth: nat, p: Package, q: Package :| StoppedAt(Star(n), 0, limit, visited, depth, p, q);
      StarBall(n, depth);
      if depth == 0 {
        SubsetSize(visited, {0});
      } else {
        StarBall(n, depth - 1);
      }
      assert false;
    }
  }

  /** Each of the packages 1 to `n` depends on the one before. */
  function Line(n: nat): Graph { if n == 0 then map[] else Line(n - 1)[n - 1 := {n}] }

  lemma {:induction false} LineNext(n: nat, k: Package)
    ensures Next(Line(n), k) == if k < n then {k + 1} else {}
  {
    if n > 0 { LineNext(n - 1, k); }
  }

  lemma LineFollows(n: nat, radius: nat)
    requires 1 <= radius <= n
    ensures var near, far := Leaves(radius - 1) + {0}, Leaves(radius) + {0};
      && near <= far
      && (forall p :: p in near ==> Next(Line(n), p) <= far)
      && (forall q :: q in far && q !in near ==> exists p :: p in near && q in Next(Line(n), p))
  {
    hide Leaves, Line, Next;
    var near, far := Leaves(radius - 1) + {0}, Leaves(radius) + {0};
    forall p | p in near ensures p in far && Next(Line(n), p) <= far {
      LeavesAre(radius - 1, p);
      LeavesAre(radius, p);
      LeavesAre(radius, p + 1);
      LineNext(n, p);
    }
    forall q | q in far && q !in near ensures exists p :: p in near && q in Next(Line(n), p) {
      LeavesAre(radius, q);
      LeavesAre(radius - 1, q);
      LeavesAre(radius - 1, radius - 1);
      LineNext(n, radius - 1);
      assert q == radius && radius - 1 in near;
    }
  }

  lemma {:induction false} LineBall(n: nat, radius: nat)
    requires radius <= n
    ensures Within(Line(n), {0}, radius) == Leaves(radius) + {0}
  {
    hide Line, Next;
    if radius > 0 {
      LineBall(n, radius - 1);
      LineFollows(n, radius);
      hide Within, Leaves;
      NextBall(Line(n), {0}, radius - 1, Leaves(radius - 1) + {0}, Leaves(radius) + {0});
    }
  }

  /** On a line whose core reaches the limit the search stops with exactly as many packages. */
  lemma LineHoldsLimit(n: nat, limit: nat, max: nat, visited: set<Package>, truncated: bool)
    requires 1 <= max <= limit <= n && IsLocalFocus(Line(n), 0, limit, max, visited, truncated)
    ensures |Within(Line(n), {0}, limit - 1)| >= max
    ensures truncated && |visited| == max
  {
    hide Within, Leaves, Line, IsLocalFocus;
    LineBall(n, limit);
    LineBall(n, limit - 1);
    LeavesSize(limit);
    LeavesSize(limit - 1);
    LineStopsBy(n, limit, max, visited, truncated);
    BoundHeldIff(Line(n), 0, limit, max, visited, truncated);
    FullWhenNotTruncated(n, limit, max, visited, truncated);
  }

  lemma FullWhenNotTruncated(n: nat, limit: nat, max: nat, visited: set<Package>, truncated: bool)
    requires limit <= n && IsLocalFocus(Line(n), 0, limit, max, visited, truncated)
    ensures !truncated ==> |visited| == limit + 1
  {
    hide Leaves, Line;
    LineBall(n, limit);
    LeavesSize(limit);
  }

  lemma LineStopsBy(n: nat, limit: nat, max: nat, visited: set<Package>, truncated: bool)
    requires 1 <= max <= n && IsLocalFocus(Line(n), 0, limit, max, visited, truncated)
    ensures |visited| <= max
  {
    hide Within, Leaves, Line;
    if max == 1 {
      SubsetSize(visited, {0});
    } else {
      LineBall(n, max - 2);
      LineBall(n, max - 1);
      LeavesSize(max - 2);
      LeavesSize(max - 1);
      OvershootIsOneStep(Line(n), 0, limit, max, visited, truncated, max - 2);
    }
  }
}
