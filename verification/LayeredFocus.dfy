/** The focus search over BigQuery: one depth at a time, queueing visited packages again. */
module LayeredFocus {
  import opened Wrappers
  import opened Ball
  import opened Naturals

  type Frontier = seq<(Package, nat)>

  /** A row says that `dependent` depends directly on `name`. */
  datatype Row = Row(name: Package, dependent: Package)

  const FRONTIER_QUERY_BATCH := 200

  /** What the query answers: for a batch of names, their dependents, in any order, with any
      repetitions and self-references. */
  ghost predicate Answers(g: Graph, query: seq<Package> -> seq<Row>) {
    forall batch, p, q :: p != q ==> (Row(p, q) in query(batch) <==> p in batch && q in Next(g, p))
  }

  function Names(f: Frontier): (s: set<Package>) { set i | 0 <= i < |f| :: f[i].0 }

  ghost function Dependents(g: Graph, names: set<Package>): set<Package> {
    set p, q | p in names && q in Next(g, p) && p != q :: q
  }

  /** The edges into `names`, as (dependent, dependency). */
  ghost function EdgesInto(g: Graph, names: set<Package>): set<(Package, Package)> {
    set p, q | p in names && q in Next(g, p) && p != q :: (q, p)
  }

  datatype State = State(visited: set<Package>, edges: set<(Package, Package)>, frontier: Frontier, truncated: bool)

  /** Entries at `depth` were added to the frontier for exactly the visited dependents. */
  ghost predicate Queued(before: Frontier, after: Frontier, depth: nat, dependents: set<Package>, visited: set<Package>) {
    && |before| <= |after| && after[..|before|] == before
    && (forall i :: |before| <= i < |after| ==> after[i].1 == depth && after[i].0 in visited && after[i].0 in dependents)
    && (forall q :: q in dependents && q in visited ==> (q, depth) in after[|before|..])
  }

  /** Visited packages never exceed the limit; as long as nothing is left out all dependents
      are visited, and once something is left out nothing more is. */
  ghost predicate Kept(v: set<Package>, w: set<Package>, max: nat, cutBefore: bool, cutAfter: bool, dependents: set<Package>) {
    && v <= w <= v + dependents
    && |w| <= max
    && (cutBefore ==> cutAfter && w == v)
    && (!cutAfter ==> w == v + dependents)
    && (cutAfter ==> |w| == max && (cutBefore || !(dependents <= w)))
  }

  /** What rows with these dependents and edges do to the state at a depth: edges are all
      kept, visited packages never exceed the limit, and as long as nothing is left out
      every dependent is visited. Every visited dependent is queued, again if need be. */
  ghost predicate Absorbed(s: State, t: State, depth: nat, max: nat, dependents: set<Package>, edges: set<(Package, Package)>) {
    && t.edges == s.edges + edges
    && Kept(s.visited, t.visited, max, s.truncated, t.truncated, dependents)
    && Queued(s.frontier, t.frontier, depth + 1, dependents, t.visited)
  }

  /** The limit is kept, and reached before anything is left out. */
  predicate Fits(s: State, max: nat) { |s.visited| <= max && (s.truncated ==> |s.visited| == max) }

  lemma QueuedCompose(a: Frontier, b: Frontier, c: Frontier, depth: nat, d1: set<Package>, v1: set<Package>, d2: set<Package>, v2: set<Package>)
    requires Queued(a, b, depth, d1, v1) && Queued(b, c, depth, d2, v2) && v1 <= v2 && d1 * v2 <= v1
    ensures Queued(a, c, depth, d1 + d2, v2)
  {
    assert c[..|a|] == c[..|b|][..|a|];
    forall i | |a| <= i < |c| ensures c[i].1 == depth && c[i].0 in v2 && c[i].0 in d1 + d2 {
      if i < |b| { assert c[i] == c[..|b|][i] == b[i]; }
    }
    assert c[|a|..] == b[|a|..] + c[|b|..] by { assert c == b + c[|b|..]; }
  }

  lemma KeptCompose(u: set<Package>, v: set<Package>, w: set<Package>, max: nat, c0: bool, c1: bool, c2: bool, d1: set<Package>, d2: set<Package>)
    requires Kept(u, v, max, c0, c1, d1) && Kept(v, w, max, c1, c2, d2)
    ensures Kept(u, w, max, c0, c2, d1 + d2) && d1 * w <= v
  {
    if c2 && !c0 {
      if c1 {
        var q :| q in d1 && q !in v;
        assert q in d1 + d2 && q !in w;
      } else {
        var q :| q in d2 && q !in w;
        assert q in d1 + d2;
      }
    }
  }

  lemma EdgesCompose(a: set<(Package, Package)>, b: set<(Package, Package)>, c: set<(Package, Package)>)
    ensures (a + b) + c == a + (b + c)
  {}

  lemma AbsorbedCompose(s: State, t: State, u: State, depth: nat, max: nat,
                        d1: set<Package>, e1: set<(Package, Package)>, d2: set<Package>, e2: set<(Package, Package)>)
    requires Absorbed(s, t, depth, max, d1, e1) && Absorbed(t, u, depth, max, d2, e2)
    ensures Absorbed(s, u, depth, max, d1 + d2, e1 + e2)
  {
    assert t.visited <= u.visited;
    hide Queued, Kept;
    KeptCompose(s.visited, t.visited, u.visited, max, s.truncated, t.truncated, u.truncated, d1, d2);
    QueuedCompose(s.frontier, t.frontier, u.frontier, depth + 1, d1, t.visited, d2, u.visited);
    EdgesCompose(s.edges, e1, e2);
  }

  lemma NothingAbsorbed(s: State, depth: nat, max: nat)
    requires Fits(s, max)
    ensures Absorbed(s, s, depth, max, {}, {})
  {}

  function RowDependents(row: Row): set<Package> { if row.name == row.dependent then {} else {row.dependent} }

  function RowEdges(row: Row): set<(Package, Package)> {
    if row.name == row.dependent then {} else {(row.dependent, row.name)}
  }

  /** The body of the row loop. */
  method AbsorbRow(s: State, row: Row, depth: nat, max: nat) returns (t: State)
    requires Fits(s, max)
    ensures Fits(t, max)
    ensures Absorbed(s, t, depth, max, RowDependents(row), RowEdges(row))
  {
    t := s;
    if row.name == row.dependent {
      NothingAbsorbed(s, depth, max);
      return;
    }
    t := t.(edges := t.edges + {(row.dependent, row.name)});
    var wasNew := row.dependent !in t.visited;
    t := t.(visited := t.visited + {row.dependent});
    if wasNew && |t.visited| > max {
      t := t.(visited := t.visited - {row.dependent}, truncated := true);
      assert t.visited == s.visited;
      return;
    }
    assert row.dependent in s.visited ==> s.visited + {row.dependent} == s.visited;
    t := t.(frontier := t.frontier + [(row.dependent, depth + 1)]);
    assert t.frontier[|s.frontier|..] == [(row.dependent, depth + 1)];
  }

  ghost function AllDependents(rows: seq<Row>): set<Package> {
    if rows == [] then {} else AllDependents(rows[..|rows| - 1]) + RowDependents(rows[|rows| - 1])
  }

  ghost function AllEdges(rows: seq<Row>): set<(Package, Package)> {
    if rows == [] then {} else AllEdges(rows[..|rows| - 1]) + RowEdges(rows[|rows| - 1])
  }

  lemma {:induction false} InAll(rows: seq<Row>, p: Package, q: Package)
    ensures (q, p) in AllEdges(rows) <==> p != q && Row(p, q) in rows
    ensures (q, p) in AllEdges(rows) ==> q in AllDependents(rows)
  {
    if rows != [] {
      InAll(rows[..|rows| - 1], p, q);
      assert rows == rows[..|rows| - 1] + [rows[|rows| - 1]];
    }
  }

  lemma {:induction false} DependentHasEdge(rows: seq<Row>, q: Package) returns (p: Package)
    requires q in AllDependents(rows)
    ensures (q, p) in AllEdges(rows)
  {
    var row := rows[|rows| - 1];
    if q in RowDependents(row) { p := row.name; } else { p := DependentHasEdge(rows[..|rows| - 1], q); }
  }

  /** The rows of a query carry the edges into its batch. */
  lemma AnswerCovers(g: Graph, query: seq<Package> -> seq<Row>, batch: seq<Package>, names: set<Package>)
    requires Answers(g, query) && forall p :: p in names <==> p in batch
    ensures AllEdges(query(batch)) == EdgesInto(g, names) && AllDependents(query(batch)) == Dependents(g, names)
  {
    var rows := query(batch);
    forall e: (Package, Package) ensures e in AllEdges(rows) <==> e in EdgesInto(g, names) {
      InAll(rows, e.1, e.0);
      assert e == (e.0, e.1);
    }
    forall q ensures q in AllDependents(rows) <==> q in Dependents(g, names) {
      if q in AllDependents(rows) {
        var p := DependentHasEdge(rows, q);
        assert (q, p) in EdgesInto(g, names);
      }
      if q in Dependents(g, names) {
        var p :| p in names && q in Next(g, p) && p != q;
        InAll(rows, p, q);
        assert (q, p) in EdgesInto(g, names);
      }
    }
  }

  method AbsorbRows(s: State, rows: seq<Row>, depth: nat, max: nat) returns (t: State)
    requires Fits(s, max)
    ensures Fits(t, max)
    ensures Absorbed(s, t, depth, max, AllDependents(rows), AllEdges(rows))
  {
    hide Absorbed, RowDependents, RowEdges;
    t := s;
    NothingAbsorbed(s, depth, max);
    for n := 0 to |rows|
      invariant Fits(t, max)
      invariant Absorbed(s, t, depth, max, AllDependents(rows[..n]), AllEdges(rows[..n]))
    {
      var u := AbsorbRow(t, rows[n], depth, max);
      AbsorbedCompose(s, t, u, depth, max, AllDependents(rows[..n]), AllEdges(rows[..n]), RowDependents(rows[n]), RowEdges(rows[n]));
      assert rows[..n + 1][..n] == rows[..n];
      t := u;
    }
    assert rows[..|rows|] == rows;
  }

  function Retain(f: Frontier, visited: set<Package>): Frontier {
    if f == [] then [] else (if f[0].0 in visited then [f[0]] else []) + Retain(f[1..], visited)
  }

  /** Whatever is left out was never queued, so dropping unvisited names from the frontier
      changes nothing. */
  lemma {:induction false} RetainAll(f: Frontier, visited: set<Package>)
    requires forall i :: 0 <= i < |f| ==> f[i].0 in visited
    ensures Retain(f, visited) == f
  {
    if f != [] { RetainAll(f[1..], visited); }
  }

  lemma UnionDependents(g: Graph, a: set<Package>, b: set<Package>)
    ensures Dependents(g, a + b) == Dependents(g, a) + Dependents(g, b)
    ensures EdgesInto(g, a + b) == EdgesInto(g, a) + EdgesInto(g, b)
  {}

  lemma AllQueuedVisited(s: State, t: State, depth: nat, max: nat, dependents: set<Package>, edges: set<(Package, Package)>)
    requires s.frontier == [] && Absorbed(s, t, depth, max, dependents, edges)
    ensures forall i :: 0 <= i < |t.frontier| ==> t.frontier[i].0 in t.visited
  {}

  /** One layer, queried in batches. */
  method AbsorbLayer(ghost g: Graph, query: seq<Package> -> seq<Row>, s: State, layer: seq<Package>, depth: nat, max: nat) returns (t: State)
    requires Answers(g, query) && Fits(s, max) && s.frontier == []
    ensures Absorbed(s, t, depth, max, Dependents(g, Members(layer)), EdgesInto(g, Members(layer)))
  {
    hide Absorbed, Answers;
    t := s;
    NothingAbsorbed(s, depth, max);
    var start := 0;
    NothingLayered(g, layer);
    hide Dependents, EdgesInto, Members;
    while start < |layer|
      invariant 0 <= start <= |layer| && Fits(t, max)
      invariant Absorbed(s, t, depth, max, Dependents(g, Members(layer[..start])), EdgesInto(g, Members(layer[..start])))
    {
      var end := if start + FRONTIER_QUERY_BATCH <= |layer| then start + FRONTIER_QUERY_BATCH else |layer|;
      var batch := layer[start..end];
      ghost var before, names := Members(layer[..start]), Members(batch);
      BatchCovers(g, query, layer, start, end);
      UnionDependents(g, before, names);
      var u := AbsorbRows(t, query(batch), depth, max);
      AbsorbedCompose(s, t, u, depth, max, Dependents(g, before), EdgesInto(g, before), Dependents(g, names), EdgesInto(g, names));
      t := u;
      if t.truncated {
        AllQueuedVisited(s, t, depth, max, Dependents(g, before + names), EdgesInto(g, before + names));
        RetainAll(t.frontier, t.visited);
        t := t.(frontier := Retain(t.frontier, t.visited));
      }
      start := end;
    }
    assert layer[..|layer|] == layer;
  }

  lemma NothingLayered(g: Graph, layer: seq<Package>)
    ensures Dependents(g, Members(layer[..0])) == {} && EdgesInto(g, Members(layer[..0])) == {}
  {}

  lemma BatchCovers(g: Graph, query: seq<Package> -> seq<Row>, layer: seq<Package>, start: nat, end: nat)
    requires Answers(g, query) && start <= end <= |layer|
    ensures Members(layer[..end]) == Members(layer[..start]) + Members(layer[start..end])
    ensures AllEdges(query(layer[start..end])) == EdgesInto(g, Members(layer[start..end]))
    ensures AllDependents(query(layer[start..end])) == Dependents(g, Members(layer[start..end]))
  {
    assert layer[..end] == layer[..start] + layer[start..end];
    AnswerCovers(g, query, layer[start..end], Members(layer[start..end]));
  }

  /** The names at the front of the frontier that share its first depth. */
  method DrainDepth(frontier0: Frontier, depth: nat) returns (layer: seq<Package>, frontier: Frontier)
    requires forall i :: 0 <= i < |frontier0| ==> frontier0[i].1 == depth
    ensures Members(layer) == Names(frontier0) && frontier == []
  {
    layer, frontier := [], frontier0;
    ghost var n := 0;
    while frontier != [] && frontier[0].1 == depth
      invariant 0 <= n <= |frontier0| && frontier == frontier0[n..]
      invariant forall i :: 0 <= i < |frontier| ==> frontier[i].1 == depth
      invariant |layer| == n && forall i :: 0 <= i < n ==> layer[i] == frontier0[i].0
      decreases |frontier|
    {
      layer := layer + [frontier[0].0];
      frontier := frontier[1..];
      n := n + 1;
    }
    forall p ensures p in Members(layer) <==> p in Names(frontier0) {
      if p in layer { var i :| 0 <= i < |layer| && layer[i] == p; assert frontier0[i].0 == p; }
      if p in Names(frontier0) { var i :| 0 <= i < |frontier0| && frontier0[i].0 == p; assert layer[i] == p; }
    }
  }

  // ----- whole searches

  ghost function Inside(g: Graph, target: Package, k: nat): set<Package> {
    if k == 0 then {} else Within(g, {target}, k - 1)
  }

  /** The search before the layer at depth `k`; `expanded` are the names queried so far.
      They are the visited packages nearer than `k`, and those at `k` are queued. */
  ghost predicate AtDepth(g: Graph, target: Package, limit: nat, max: nat, s: State, k: nat, expanded: set<Package>) {
    && k <= limit && target in s.visited && s.visited <= Within(g, {target}, k) && Fits(s, max)
    && (forall i :: 0 <= i < |s.frontier| ==> s.frontier[i].1 == k)
    && s.edges == EdgesInto(g, expanded)
    && expanded == s.visited * Inside(g, target, k) && s.visited == expanded + Names(s.frontier)
    && (!s.truncated ==> s.visited == Within(g, {target}, k))
    && (s.truncated ==> Cut(g, target, limit, s))
  }

  /** Something was left out: some edge leads to a package of the ball that is not visited,
      and what is visited is nearest first. */
  ghost predicate Cut(g: Graph, target: Package, limit: nat, s: State) {
    && (exists e :: e in s.edges && e.0 !in s.visited && e.0 in Within(g, {target}, limit))
    && exists depth: nat :: NearestFirst(g, {target}, depth, s.visited)
  }

  /** What the search promises: the visited packages are the ball cut to the limit, and the
      edges are all those into visited packages less than the limit away, whether their
      dependents were kept or not. */
  ghost predicate IsLayeredFocus(g: Graph, target: Package, limit: nat, max: nat, s: State) {
    && CutBall(g, target, limit, max, s.visited, s.truncated)
    && s.edges == EdgesInto(g, s.visited * Inside(g, target, limit))
    && (s.truncated <==> exists e :: e in s.edges && e.0 !in s.visited)
  }

  lemma NeighboursAreDependents(g: Graph, names: set<Package>)
    ensures Neighbours(g, names) <= names + Dependents(g, names)
    ensures Dependents(g, names) <= Neighbours(g, names)
  {}

  lemma DependentsAreNear(g: Graph, target: Package, k: nat, limit: nat, layer: set<Package>)
    requires layer <= Within(g, {target}, k) && k < limit
    ensures Dependents(g, layer) <= Within(g, {target}, k + 1) <= Within(g, {target}, limit)
  {
    forall q | q in Dependents(g, layer) ensures q in Within(g, {target}, k + 1) {
      var p :| p in layer && q in Next(g, p) && p != q;
      WithinStep(g, {target}, k, p, q);
    }
    WithinGrows(g, {target}, k + 1, limit);
  }

  lemma QueuedNames(f: Frontier, depth: nat, dependents: set<Package>, visited: set<Package>)
    requires Queued([], f, depth, dependents, visited)
    ensures forall i :: 0 <= i < |f| ==> f[i].1 == depth
    ensures Names(f) == dependents * visited
  {
    assert f[0..] == f;
    forall q | q in dependents && q in visited ensures q in Names(f) {
      var i :| 0 <= i < |f| && f[i] == (q, depth);
      assert f[i].0 == q;
    }
  }

  lemma EdgesToDependents(g: Graph, layer: set<Package>, q: Package)
    requires q in Dependents(g, layer)
    ensures exists e :: e in EdgesInto(g, layer) && e.0 == q
  {
    var p :| p in layer && q in Next(g, p) && p != q;
    assert (q, p) in EdgesInto(g, layer);
  }

  lemma StillCut(g: Graph, target: Package, limit: nat, s: State, t: State)
    requires Cut(g, target, limit, s) && s.edges <= t.edges && t.visited == s.visited
    ensures Cut(g, target, limit, t)
  {}

  lemma NowCut(g: Graph, target: Package, limit: nat, t: State, layer: set<Package>, depth: nat)
    requires EdgesInto(g, layer) <= t.edges && !(Dependents(g, layer) <= t.visited)
    requires Dependents(g, layer) <= Within(g, {target}, limit)
    requires NearestFirst(g, {target}, depth, t.visited)
    ensures Cut(g, target, limit, t)
  {
    var q :| q in Dependents(g, layer) && q !in t.visited;
    EdgesToDependents(g, layer, q);
  }

  lemma LayerTruncated(g: Graph, target: Package, limit: nat, max: nat, s: State, t: State, k: nat, layer: set<Package>)
    requires s.truncated ==> Cut(g, target, limit, s)
    requires !s.truncated ==> s.visited == Within(g, {target}, k)
    requires layer <= Within(g, {target}, k) && k < limit && t.truncated
    requires t.edges == s.edges + EdgesInto(g, layer) && t.visited <= Within(g, {target}, k + 1)
    requires Kept(s.visited, t.visited, max, s.truncated, t.truncated, Dependents(g, layer))
    ensures Cut(g, target, limit, t)
  {
    DependentsAreNear(g, target, k, limit, layer);
    hide Cut, EdgesInto, Dependents, Within;
    if s.truncated { StillCut(g, target, limit, s, t); } else { NowCut(g, target, limit, t, layer, k + 1); }
  }

  /** A layer that left nothing out completes the next ball. */
  lemma LayerCompletes(g: Graph, target: Package, k: nat, visited: set<Package>, expanded: set<Package>, layer: set<Package>)
    requires visited == Within(g, {target}, k) == expanded + layer && expanded == visited * Inside(g, target, k)
    ensures Within(g, {target}, k + 1) == visited + Dependents(g, layer)
  {
    NeighboursAreDependents(g, visited);
    UnionDependents(g, expanded, layer);
    hide Neighbours, Dependents;
    if k > 0 {
      DependentsAreNear(g, target, k - 1, k, expanded);
    } else {
      assert expanded == {} && layer == visited;
    }
    WithinUnfold(g, {target}, k + 1);
  }

  /** What is visited now at depth `k` or nearer was visited before the layer. */
  lemma LayerIsRim(g: Graph, target: Package, k: nat, visited: set<Package>, after: set<Package>, truncated: bool)
    requires visited <= Within(g, {target}, k) && visited <= after
    requires if truncated then after == visited else visited == Within(g, {target}, k)
    ensures visited == after * Inside(g, target, k + 1)
  {}

  lemma LayerStep(g: Graph, target: Package, limit: nat, max: nat, s: State, t: State, k: nat, expanded: set<Package>)
    requires AtDepth(g, target, limit, max, s, k, expanded) && k < limit
    requires Absorbed(s.(frontier := []), t, k, max, Dependents(g, Names(s.frontier)), EdgesInto(g, Names(s.frontier)))
    ensures AtDepth(g, target, limit, max, t, k + 1, expanded + Names(s.frontier))
  {
    hide Dependents, EdgesInto, Within, Names, Cut, Queued;
    var layer := Names(s.frontier);
    UnionDependents(g, expanded, layer);
    DependentsAreNear(g, target, k, limit, layer);
    WithinGrows(g, {target}, k, k + 1);
    QueuedNames(t.frontier, k + 1, Dependents(g, layer), t.visited);
    LayerIsRim(g, target, k, s.visited, t.visited, s.truncated);
    if t.truncated {
      LayerTruncated(g, target, limit, max, s, t, k, layer);
    } else {
      LayerCompletes(g, target, k, s.visited, expanded, layer);
    }
  }

  /** A layer that queued nothing means that the ball has stopped growing. */
  lemma BallStopped(g: Graph, target: Package, k: nat, limit: nat)
    requires 0 < k < limit && Within(g, {target}, k) == Within(g, {target}, k - 1)
    ensures Within(g, {target}, limit) == Within(g, {target}, limit - 1) == Within(g, {target}, k)
  {
    hide Within, Neighbours;
    WithinUnfold(g, {target}, k);
    WithinSaturates(g, {target}, k - 1, limit);
    WithinSaturates(g, {target}, k - 1, limit - 1);
  }

  /** At the end everything visited inside the ball has been expanded. */
  lemma EndExpanded(g: Graph, target: Package, limit: nat, s: State, k: nat, expanded: set<Package>)
    requires target in s.visited && k <= limit && (k == limit || s.frontier == [])
    requires expanded == s.visited * Inside(g, target, k) && s.visited == expanded + Names(s.frontier)
    ensures expanded == s.visited * Inside(g, target, limit)
    ensures s.visited == Within(g, {target}, k) ==> s.visited == Within(g, {target}, limit)
  {
    hide Within, Names;
    if k < limit {
      NoNames();
      InsideGrows(g, target, k, limit);
      NothingOutside(s.visited, expanded, Inside(g, target, k), Inside(g, target, limit));
      if s.visited == Within(g, {target}, k) { BallStopped(g, target, k, limit); }
    }
  }

  lemma NoNames()
    ensures Names([]) == {}
  {}

  lemma InsideGrows(g: Graph, target: Package, k: nat, limit: nat)
    requires k <= limit
    ensures Inside(g, target, k) <= Inside(g, target, limit)
    ensures Inside(g, target, k) <= Within(g, {target}, k)
  {
    hide Within;
    if k > 0 {
      WithinGrows(g, {target}, k - 1, limit - 1);
      WithinGrows(g, {target}, k - 1, k);
    }
  }

  lemma NothingOutside(visited: set<Package>, expanded: set<Package>, small: set<Package>, large: set<Package>)
    requires visited == expanded == visited * small && small <= large
    ensures visited == visited * large && visited <= small
  {}

  lemma EndIsFocus(g: Graph, target: Package, limit: nat, max: nat, s: State, k: nat, expanded: set<Package>)
    requires AtDepth(g, target, limit, max, s, k, expanded) && (k == limit || s.frontier == [])
    ensures IsLayeredFocus(g, target, limit, max, s)
  {
    hide Within, EdgesInto, Dependents, Names, CutBall;
    EndExpanded(g, target, limit, s, k, expanded);
    WithinGrows(g, {target}, k, limit);
    if s.truncated {
      CutIsSmaller(g, target, limit, max, s);
    } else {
      WholeBallIsCut(g, target, limit, max, s.visited);
      InnerEdges(g, target, limit, expanded, s.edges);
    }
  }

  /** The edges into packages less than the limit away stay in the ball. */
  lemma InnerEdges(g: Graph, target: Package, limit: nat, expanded: set<Package>, edges: set<(Package, Package)>)
    requires expanded <= Inside(g, target, limit) && edges == EdgesInto(g, expanded)
    ensures forall e :: e in edges ==> e.0 in Within(g, {target}, limit)
  {
    hide Within;
    if limit > 0 {
      DependentsAreNear(g, target, limit - 1, limit, expanded);
      forall e | e in edges ensures e.0 in Within(g, {target}, limit) { assert e.0 in Dependents(g, expanded); }
    }
  }

  lemma CutIsSmaller(g: Graph, target: Package, limit: nat, max: nat, s: State)
    requires Cut(g, target, limit, s) && target in s.visited && s.visited <= Within(g, {target}, limit) && |s.visited| == max
    ensures CutBall(g, target, limit, max, s.visited, true)
    ensures exists e :: e in s.edges && e.0 !in s.visited
  {
    var e :| e in s.edges && e.0 !in s.visited && e.0 in Within(g, {target}, limit);
    ProperSize(s.visited, Within(g, {target}, limit), e.0);
    var depth: nat :| NearestFirst(g, {target}, depth, s.visited);
    FullIsCut(g, target, limit, max, s.visited, depth);
  }

  lemma StartAtDepth(g: Graph, target: Package, limit: nat, max: nat)
    requires max > 0
    ensures AtDepth(g, target, limit, max, State({target}, {}, [(target, 0)], false), 0, {})
  {
    var start: Frontier := [(target, 0)];
    assert start[0].0 == target;
    assert Names(start) == {target};
    assert {target} * Inside(g, target, 0) == {};
  }

  lemma DepthFacts(g: Graph, target: Package, limit: nat, max: nat, s: State, k: nat, expanded: set<Package>)
    requires AtDepth(g, target, limit, max, s, k, expanded)
    ensures k <= limit && Fits(s.(frontier := []), max)
    ensures forall i :: 0 <= i < |s.frontier| ==> s.frontier[i].1 == k
  {}

  lemma LoopEnds(g: Graph, target: Package, limit: nat, max: nat, s: State, k: nat, expanded: set<Package>)
    requires AtDepth(g, target, limit, max, s, k, expanded) && (s.frontier == [] || s.frontier[0].1 >= limit)
    ensures IsLayeredFocus(g, target, limit, max, s)
  {
    hide IsLayeredFocus, AtDepth;
    DepthFacts(g, target, limit, max, s, k, expanded);
    EndIsFocus(g, target, limit, max, s, k, expanded);
  }

  /** The body of the layer loop: the front of the frontier is queried and absorbed. */
  method ExpandLayer(ghost g: Graph, query: seq<Package> -> seq<Row>, ghost target: Package, ghost limit: nat, max: nat, s: State,
                     ghost k: nat, ghost expanded: set<Package>) returns (t: State)
    requires Answers(g, query) && AtDepth(g, target, limit, max, s, k, expanded) && s.frontier != [] && s.frontier[0].1 < limit
    ensures k < limit && AtDepth(g, target, limit, max, t, k + 1, expanded + Names(s.frontier))
  {
    hide *;
    DepthFacts(g, target, limit, max, s, k, expanded);
    var currentDepth := s.frontier[0].1;
    var layer, rest := DrainDepth(s.frontier, currentDepth);
    t := AbsorbLayer(g, query, s.(frontier := rest), layer, currentDepth, max);
    LayerStep(g, target, limit, max, s, t, k, expanded);
  }

  /** The layer loop. */
  method SearchLayers(ghost g: Graph, query: seq<Package> -> seq<Row>, target: Package, reverseDepth: nat, maxFrontier: nat)
    returns (s: State)
    requires Answers(g, query) && maxFrontier > 0
    ensures IsLayeredFocus(g, target, reverseDepth, maxFrontier, s)
  {
    hide *;
    s := State({target}, {}, [(target, 0)], false);
    ghost var k, expanded: set<Package> := 0, {};
    StartAtDepth(g, target, reverseDepth, maxFrontier);
    while s.frontier != [] && s.frontier[0].1 < reverseDepth
      invariant AtDepth(g, target, reverseDepth, maxFrontier, s, k, expanded)
      decreases reverseDepth - k
    {
      ghost var layer := Names(s.frontier);
      s := ExpandLayer(g, query, target, reverseDepth, maxFrontier, s, k, expanded);
      expanded := expanded + layer;
      k := k + 1;
    }
    LoopEnds(g, target, reverseDepth, maxFrontier, s, k, expanded);
  }

  method FocusDependentsLive(ghost g: Graph, query: seq<Package> -> seq<Row>, target: Package, reverseDepth: nat, maxFrontier: nat)
    returns (r: Result<State>)
    requires Answers(g, query)
    ensures r.Err? <==> maxFrontier == 0
    ensures r.Ok? ==> IsLayeredFocus(g, target, reverseDepth, maxFrontier, r.value)
  {
    if maxFrontier == 0 { return Err; }
    var s := SearchLayers(g, query, target, reverseDepth, maxFrontier);
    r := Ok(s);
  }
}
