/** Importing the dependency edges of the top packages within an edge budget. */
module BaselineEdges {
  import opened Wrappers
  import opened Sequences
  import opened BaselineWindows
  import opened BaselinePaging

  const QUERY_BATCH := 50

  /** A package and what it depends on. */
  type Edge = (Name, Name)

  /** What the edge query returns for a batch of names and a limit, whether it honours the
      limit or not. */
  type Answer = (seq<Name>, Option<nat>) -> seq<Edge>

  function Batches(frontier: seq<Name>): seq<seq<Name>> {
    if frontier == [] then []
    else if |frontier| <= QUERY_BATCH then [frontier]
    else [frontier[..QUERY_BATCH]] + Batches(frontier[QUERY_BATCH..])
  }

  function Joined(batches: seq<seq<Name>>): seq<Name> { if batches == [] then [] else batches[0] + Joined(batches[1..]) }

  /** The batches put together are the frontier. None is empty, and all but the last are full. */
  lemma {:induction false} BatchesAreChunks(frontier: seq<Name>)
    ensures Joined(Batches(frontier)) == frontier
    ensures forall i :: 0 <= i < |Batches(frontier)| ==> 1 <= |Batches(frontier)[i]| <= 50
    ensures forall i :: 0 <= i < |Batches(frontier)| - 1 ==> |Batches(frontier)[i]| == 50
  {
    var b := Batches(frontier);
    if |frontier| > QUERY_BATCH {
      BatchesAreChunks(frontier[QUERY_BATCH..]);
      assert b[1..] == Batches(frontier[QUERY_BATCH..]);
    } else if frontier != [] {
      assert b[1..] == [] && Joined([]) == [];
    }
  }

  lemma {:induction false} InJoined(batches: seq<seq<Name>>, name: Name)
    ensures name in Joined(batches) <==> exists b :: b in batches && name in b
  {
    if batches != [] {
      InJoined(batches[1..], name);
      assert batches == [batches[0]] + batches[1..];
    }
  }

  // ----- one window

  /** Limits are positive, and there is one exactly when there is a quota. */
  predicate LimitFor(quota: nat, limit: Option<nat>) {
    if quota == 0 then limit == None else limit.Some? && 1 <= limit.value <= quota
  }

  ghost predicate Returned(quota: nat, answer: Answer, batch: seq<Name>, e: Edge) {
    exists limit :: LimitFor(quota, limit) && e in answer(batch, limit)
  }

  ghost predicate AllKept(answer: Answer, batch: seq<Name>, limit: Option<nat>, edges: seq<Edge>) {
    forall e :: e in answer(batch, limit) ==> e in edges
  }

  ghost predicate Exhausted(quota: nat, answer: Answer, batch: seq<Name>, edges: seq<Edge>) {
    exists limit :: LimitFor(quota, limit) && AllKept(answer, batch, limit, edges)
  }

  /** Different edges, each returned for some batch, within the quota if there is one; below
      the quota, or without one, the first `n` batches were asked and all they returned kept. */
  ghost predicate Gathered(batches: seq<seq<Name>>, n: nat, quota: nat, answer: Answer, edges: seq<Edge>) {
    && Distinct(edges)
    && (quota > 0 ==> |edges| <= quota)
    && (forall e :: e in edges ==> exists b :: b in batches && Returned(quota, answer, b, e))
    && ((quota == 0 || |edges| < quota) ==> forall i :: 0 <= i < n && i < |batches| ==> Exhausted(quota, answer, batches[i], edges))
  }

  /** A batch of at most fifty of these names. */
  ghost predicate IsBatch(frontier: seq<Name>, batch: seq<Name>) {
    1 <= |batch| <= 50 && forall name :: name in batch ==> name in frontier
  }

  /** Some batch with this name was asked, and all it returned was kept. */
  ghost predicate Asked(frontier: seq<Name>, quota: nat, answer: Answer, edges: seq<Edge>, name: Name) {
    exists batch :: IsBatch(frontier, batch) && name in batch && Exhausted(quota, answer, batch, edges)
  }

  /** What the query promises of a frontier: different edges within the quota, each returned
      for a batch of it; below the quota, or without one, every name was asked in full. */
  ghost predicate QueryResult(frontier: seq<Name>, quota: nat, answer: Answer, edges: seq<Edge>) {
    && Distinct(edges)
    && (quota > 0 ==> |edges| <= quota)
    && (forall e :: e in edges ==> exists batch :: IsBatch(frontier, batch) && Returned(quota, answer, batch, e))
    && (quota == 0 || |edges| < quota ==> forall name :: name in frontier ==> Asked(frontier, quota, answer, edges, name))
  }

  lemma BatchOfFrontier(frontier: seq<Name>, batch: seq<Name>)
    requires batch in Batches(frontier)
    ensures IsBatch(frontier, batch)
  {
    BatchesAreChunks(frontier);
    forall name | name in batch ensures name in frontier { InJoined(Batches(frontier), name); }
  }

  lemma NameIsAsked(frontier: seq<Name>, quota: nat, answer: Answer, edges: seq<Edge>, name: Name)
    requires Gathered(Batches(frontier), |Batches(frontier)|, quota, answer, edges)
    requires (quota == 0 || |edges| < quota) && name in frontier
    ensures Asked(frontier, quota, answer, edges, name)
  {
    hide Batches, Exhausted, IsBatch, Distinct, Returned;
    BatchesAreChunks(frontier);
    InJoined(Batches(frontier), name);
    var batch :| batch in Batches(frontier) && name in batch;
    var i :| 0 <= i < |Batches(frontier)| && Batches(frontier)[i] == batch;
    BatchOfFrontier(frontier, batch);
    assert Exhausted(quota, answer, Batches(frontier)[i], edges);
  }

  lemma GatheredIsResult(frontier: seq<Name>, quota: nat, answer: Answer, edges: seq<Edge>)
    requires Gathered(Batches(frontier), |Batches(frontier)|, quota, answer, edges)
    ensures QueryResult(frontier, quota, answer, edges)
  {
    hide Batches, Asked, IsBatch, Distinct, Returned, Exhausted;
    forall e | e in edges ensures exists batch :: IsBatch(frontier, batch) && Returned(quota, answer, batch, e) {
      var batch :| batch in Batches(frontier) && Returned(quota, answer, batch, e);
      BatchOfFrontier(frontier, batch);
    }
    if quota == 0 || |edges| < quota {
      forall name | name in frontier ensures Asked(frontier, quota, answer, edges, name) {
        NameIsAsked(frontier, quota, answer, edges, name);
      }
    }
  }

  lemma AnswerGathered(batches: seq<seq<Name>>, n: nat, quota: nat, answer: Answer, edges: seq<Edge>, limit: Option<nat>, all: seq<Edge>)
    requires Gathered(batches, n, quota, answer, edges) && n < |batches|
    requires LimitFor(quota, limit)
    requires all == Capped(Dedupe(edges + answer(batches[n], limit)), quota)
    ensures Gathered(batches, n + 1, quota, answer, all)
  {
    var batch, rows := batches[n], answer(batches[n], limit);
    AppendedFacts(edges, rows, quota, all);
    hide Dedupe, Distinct;
    forall e | e in all ensures exists b :: b in batches && Returned(quota, answer, b, e) {
      if e in rows { assert Returned(quota, answer, batch, e); }
    }
    if quota == 0 || |all| < quota {
      DedupeExtends(edges, rows);
      DedupeDistinct(edges);
      assert AllKept(answer, batch, limit, all);
      forall i | 0 <= i < n ensures Exhausted(quota, answer, batches[i], all) {
        var l :| LimitFor(quota, l) && AllKept(answer, batches[i], l, edges);
        assert AllKept(answer, batches[i], l, all);
      }
    }
  }

  lemma QuotaReached(batches: seq<seq<Name>>, n: nat, quota: nat, answer: Answer, edges: seq<Edge>)
    requires Gathered(batches, n, quota, answer, edges) && quota > 0 && |edges| >= quota
    ensures Gathered(batches, |batches|, quota, answer, edges)
  {}

  lemma BatchLimit(left: nat, batches: nat)
    requires left > 0 && batches > 0
    ensures 1 <= CeilDiv(left, batches) <= left
  {
    hide CeilDiv;
    CeilOfTotal(left, batches);
    QuotientPositive(left, batches);
    DivMod(left, batches);
    ProductAtLeast(left / batches, batches);
  }

  lemma ProductAtLeast(q: nat, b: nat)
    requires b > 0
    ensures q <= q * b
    ensures q > 0 && b > 1 ==> q < q * b
  {}

  /** What is asked and kept: each batch gets the ceiling of what is left of the quota over the
      batches that remain. */
  function Gather(batches: seq<seq<Name>>, n: nat, quota: nat, answer: Answer, edges: seq<Edge>): seq<Edge>
    requires n <= |batches|
    decreases |batches| - n
  {
    if n == |batches| || (quota > 0 && |edges| >= quota) then edges
    else
      var limit := if quota > 0 then Some(CeilDiv(quota - |edges|, |batches| - n)) else None;
      Gather(batches, n + 1, quota, answer, Capped(Dedupe(edges + answer(batches[n], limit)), quota))
  }

  lemma GatherStart(batches: seq<seq<Name>>, quota: nat, answer: Answer)
    ensures Gathered(batches, 0, quota, answer, [])
  {}

  lemma GatheredDistinct(batches: seq<seq<Name>>, n: nat, quota: nat, answer: Answer, edges: seq<Edge>)
    requires Gathered(batches, n, quota, answer, edges)
    ensures Distinct(edges)
  {}

  lemma GatherStep(batches: seq<seq<Name>>, n: nat, quota: nat, answer: Answer, edges: seq<Edge>, limit: Option<nat>)
    requires n < |batches| && (quota > 0 ==> |edges| < quota)
    requires limit == if quota > 0 then Some(CeilDiv(quota - |edges|, |batches| - n)) else None
    ensures Gather(batches, n, quota, answer, edges)
         == Gather(batches, n + 1, quota, answer, Capped(Dedupe(edges + answer(batches[n], limit)), quota))
  {
    hide Dedupe, Capped, CeilDiv;
  }

  lemma GatherEnd(batches: seq<seq<Name>>, n: nat, quota: nat, answer: Answer, edges: seq<Edge>)
    requires n <= |batches| && (n == |batches| || (quota > 0 && |edges| >= quota))
    ensures Gather(batches, n, quota, answer, edges) == edges
  {}

  lemma {:induction false} GatherGathers(batches: seq<seq<Name>>, n: nat, quota: nat, answer: Answer, edges: seq<Edge>)
    requires n <= |batches| && Gathered(batches, n, quota, answer, edges)
    ensures Gathered(batches, |batches|, quota, answer, Gather(batches, n, quota, answer, edges))
    decreases |batches| - n
  {
    hide Gathered, Gather, Dedupe, Capped, CeilDiv;
    if n == |batches| {
      GatherEnd(batches, n, quota, answer, edges);
    } else if quota > 0 && |edges| >= quota {
      QuotaReached(batches, n, quota, answer, edges);
      GatherEnd(batches, n, quota, answer, edges);
    } else {
      if quota > 0 { BatchLimit(quota - |edges|, |batches| - n); }
      var limit := if quota > 0 then Some(CeilDiv(quota - |edges|, |batches| - n)) else None;
      var all := Capped(Dedupe(edges + answer(batches[n], limit)), quota);
      GatherStep(batches, n, quota, answer, edges, limit);
      AnswerGathered(batches, n, quota, answer, edges, limit, all);
      GatherGathers(batches, n + 1, quota, answer, all);
    }
  }

  /** Asks batch by batch, sharing what is left of the quota among the remaining batches. */
  method QueryGlobalBaselineEdges(frontier: seq<Name>, quota: nat, answer: Answer) returns (edges: seq<Edge>)
    ensures edges == Gather(Batches(frontier), 0, quota, answer, [])
    ensures QueryResult(frontier, quota, answer, edges)
  {
    hide QueryResult, Gather, Gathered, Dedupe, Capped, CeilDiv, Distinct, Batches;
    edges := [];
    var batches := Batches(frontier);
    GatherStart(batches, quota, answer);
    for n := 0 to |batches|
      invariant Gather(batches, 0, quota, answer, []) == Gather(batches, n, quota, answer, edges)
      invariant Gathered(batches, n, quota, answer, edges) && (quota > 0 ==> |edges| < quota)
    {
      var limit := None;
      if quota > 0 {
        BatchLimit(quota - |edges|, |batches| - n);
        limit := Some(CeilDiv(quota - |edges|, |batches| - n));
      }
      var rows := answer(batches[n], limit);
      GatheredDistinct(batches, n, quota, answer, edges);
      GatherStep(batches, n, quota, answer, edges, limit);
      AnswerGathered(batches, n, quota, answer, edges, limit, Capped(Dedupe(edges + rows), quota));
      edges := AppendNew(edges, rows, quota);
      if quota > 0 && |edges| >= quota {
        QuotaReached(batches, n + 1, quota, answer, edges);
        GatherEnd(batches, n + 1, quota, answer, edges);
        GatheredIsResult(frontier, quota, answer, edges);
        return;
      }
    }
    GatherEnd(batches, |batches|, quota, answer, edges);
    GatheredIsResult(frontier, quota, answer, edges);
  }

  // ----- the windows of an import

  /** Where the rows come from: the ranked table, the edge query, and name normalisation. */
  datatype Source = Source(table: seq<Name>, answer: Answer, normalize: Name -> Name)

  datatype Budget = Budget(packages: nat, offset: nat, edges: nat)

  ghost function FrontierOf(source: Source, b: Budget, i: nat): seq<Name>
    requires i < WindowCount(b.packages)
  {
    var w := WindowAt(b.packages, b.offset, b.edges, i);
    FirstNames(source.table, w.packages, w.offset)
  }

  /** The edges a window's rows add: normalised, without edges from a package to itself. */
  ghost function Normalised(normalize: Name -> Name, rows: seq<Edge>): set<Edge> {
    set e | e in rows && normalize(e.0) != normalize(e.1) :: (normalize(e.0), normalize(e.1))
  }

  ghost function Imported(normalize: Name -> Name, results: seq<seq<Edge>>): set<Edge> {
    if results == [] then {}
    else Imported(normalize, results[..|results| - 1]) + Normalised(normalize, results[|results| - 1])
  }

  ghost predicate WindowResult(source: Source, b: Budget, i: nat, rows: seq<Edge>)
    requires i < WindowCount(b.packages)
  {
    rows == Gather(Batches(FrontierOf(source, b, i)), 0, WindowAt(b.packages, b.offset, b.edges, i).edges, source.answer, [])
  }

  predicate Reached(b: Budget, edges: set<Edge>) { b.edges > 0 && |edges| >= b.edges }

  /** The windows' results, in order, up to the first that reaches the edge limit. */
  ghost predicate IsRun(source: Source, b: Budget, results: seq<seq<Edge>>) {
    && |results| <= WindowCount(b.packages)
    && (forall i :: 0 <= i < |results| ==> WindowResult(source, b, i, results[i]))
    && (forall i :: 0 <= i < |results| ==> !Reached(b, Imported(source.normalize, results[..i])))
  }

  ghost predicate IsImport(source: Source, b: Budget, results: seq<seq<Edge>>, edges: set<Edge>) {
    && IsRun(source, b, results) && edges == Imported(source.normalize, results)
    && (|results| == WindowCount(b.packages) || Reached(b, edges))
  }

  /** The ends of the edges. */
  ghost function Ends(edges: set<Edge>): set<Name> { (set e | e in edges :: e.0) + (set e | e in edges :: e.1) }

  method AddRows(source: Source, rows: seq<Edge>, edges0: set<Edge>, packages0: set<Name>, count0: nat)
    returns (edges: set<Edge>, packages: set<Name>, count: nat)
    requires count0 == |edges0| && packages0 == Ends(edges0)
    ensures edges == edges0 + Normalised(source.normalize, rows) && count == |edges| && packages == Ends(edges)
  {
    hide *;
    edges, packages, count := edges0, packages0, count0;
    NoneNormalised(source.normalize, rows);
    for n := 0 to |rows|
      invariant edges == edges0 + Normalised(source.normalize, rows[..n]) && count == |edges| && packages == Ends(edges)
    {
      var package, dependency := source.normalize(rows[n].0), source.normalize(rows[n].1);
      NormalisedNext(source.normalize, rows, n);
      if package == dependency { continue; }
      EndsNext(edges, (package, dependency));
      packages := packages + {package} + {dependency};
      if (package, dependency) !in edges { count := count + 1; }
      edges := edges + {(package, dependency)};
    }
    assert rows[..|rows|] == rows;
  }

  lemma NoneNormalised(normalize: Name -> Name, rows: seq<Edge>)
    ensures Normalised(normalize, rows[..0]) == {}
  {}

  lemma NormalisedNext(normalize: Name -> Name, rows: seq<Edge>, n: nat)
    requires n < |rows|
    ensures var e := (normalize(rows[n].0), normalize(rows[n].1));
            Normalised(normalize, rows[..n + 1]) == Normalised(normalize, rows[..n]) + (if e.0 == e.1 then {} else {e})
  {
    assert rows[..n + 1] == rows[..n] + [rows[n]];
  }

  lemma EndsNext(edges: set<Edge>, e: Edge)
    ensures Ends(edges + {e}) == Ends(edges) + {e.0} + {e.1}
  {}

  /** Imports window by window until the edge limit is reached. */
  method ImportDependencies(source: Source, b: Budget) returns (edges: set<Edge>, packages: set<Name>, count: nat, ghost results: seq<seq<Edge>>)
    ensures IsImport(source, b, results, edges)
    ensures count == |edges| && packages == Ends(edges)
  {
    edges, packages, count, results := {}, {}, 0, [];
    if b.packages == 0 { return; }
    var windows := BaselinePackageWindows(b.packages, b.offset, b.edges);
    hide *;
    for i := 0 to |windows|
      invariant |results| == i && IsRun(source, b, results) && edges == Imported(source.normalize, results)
      invariant count == |edges| && packages == Ends(edges)
      invariant !Reached(b, edges)
    {
      var frontier := QueryTopPackages(source.table, windows[i].packages, windows[i].offset);
      var rows := QueryGlobalBaselineEdges(frontier, windows[i].edges, source.answer);
      RunNext(source, b, results, rows);
      results := results + [rows];
      edges, packages, count := AddRows(source, rows, edges, packages, count);
      if b.edges > 0 && count >= b.edges { return; }
    }
  }

  lemma RunNext(source: Source, b: Budget, results: seq<seq<Edge>>, rows: seq<Edge>)
    requires IsRun(source, b, results) && |results| < WindowCount(b.packages)
    requires !Reached(b, Imported(source.normalize, results))
    requires WindowResult(source, b, |results|, rows)
    ensures IsRun(source, b, results + [rows])
    ensures Imported(source.normalize, results + [rows]) == Imported(source.normalize, results) + Normalised(source.normalize, rows)
  {
    hide WindowResult, Normalised, Reached, WindowCount;
    var all := results + [rows];
    assert all[..|results|] == results;
    forall i | 0 <= i < |all| ensures WindowResult(source, b, i, all[i]) && !Reached(b, Imported(source.normalize, all[..i])) {
      if i < |results| { assert all[..i] == results[..i]; }
    }
  }

  // ----- which packages are asked

  lemma {:induction false} WindowImported(normalize: Name -> Name, results: seq<seq<Edge>>, i: nat)
    requires i < |results|
    ensures Normalised(normalize, results[i]) <= Imported(normalize, results)
  {
    if i < |results| - 1 { WindowImported(normalize, results[..|results| - 1], i); }
  }

  /** Some batch with this name was asked, and all it returned was imported. */
  ghost predicate AskedInFull(source: Source, frontier: seq<Name>, quota: nat, edges: set<Edge>, name: Name) {
    exists batch, limit :: IsBatch(frontier, batch) && name in batch && LimitFor(quota, limit)
      && Normalised(source.normalize, source.answer(batch, limit)) <= edges
  }

  lemma AskedIsImported(source: Source, frontier: seq<Name>, quota: nat, rows: seq<Edge>, edges: set<Edge>, name: Name)
    requires Asked(frontier, quota, source.answer, rows, name) && Normalised(source.normalize, rows) <= edges
    ensures AskedInFull(source, frontier, quota, edges, name)
  {
    var batch :| IsBatch(frontier, batch) && name in batch && Exhausted(quota, source.answer, batch, rows);
    var limit :| LimitFor(quota, limit) && AllKept(source.answer, batch, limit, rows);
    var all := source.answer(batch, limit);
    assert Normalised(source.normalize, all) <= Normalised(source.normalize, rows);
  }

  /** A window of an import that returned less than its quota, or has none, asked in full for
      every package of its frontier. */
  lemma WindowAsked(source: Source, b: Budget, results: seq<seq<Edge>>, edges: set<Edge>, i: nat, name: Name)
    requires IsImport(source, b, results, edges) && i < |results| && name in FrontierOf(source, b, i)
    requires var quota := WindowAt(b.packages, b.offset, b.edges, i).edges; quota == 0 || |results[i]| < quota
    ensures AskedInFull(source, FrontierOf(source, b, i), WindowAt(b.packages, b.offset, b.edges, i).edges, edges, name)
  {
    hide Batches, Gather, Gathered, Imported, Normalised, Reached, WindowAt, FrontierOf, Asked, AskedInFull;
    var frontier, quota := FrontierOf(source, b, i), WindowAt(b.packages, b.offset, b.edges, i).edges;
    assert WindowResult(source, b, i, results[i]);
    GatherStart(Batches(frontier), quota, source.answer);
    GatherGathers(Batches(frontier), 0, quota, source.answer, []);
    GatheredIsResult(frontier, quota, source.answer, results[i]);
    WindowImported(source.normalize, results, i);
    AskedIsImported(source, frontier, quota, results[i], edges, name);
  }

  /** Below its limit an import got to every window. */
  lemma BelowLimitAsked(source: Source, b: Budget, results: seq<seq<Edge>>, edges: set<Edge>, i: nat, name: Name)
    requires IsImport(source, b, results, edges) && (b.edges == 0 || |edges| < b.edges)
    requires i < WindowCount(b.packages) && name in FrontierOf(source, b, i)
    ensures |results| == WindowCount(b.packages)
    ensures var quota := WindowAt(b.packages, b.offset, b.edges, i).edges;
      quota == 0 || |results[i]| < quota ==> AskedInFull(source, FrontierOf(source, b, i), quota, edges, name)
  {
    hide AskedInFull, Imported, WindowAt, FrontierOf, WindowResult, WindowCount;
    var quota := WindowAt(b.packages, b.offset, b.edges, i).edges;
    if quota == 0 || |results[i]| < quota { WindowAsked(source, b, results, edges, i, name); }
  }

  /** Without an edge limit an import asks in full for each of the top packages. */
  lemma EveryTopPackageAsked(source: Source, b: Budget, results: seq<seq<Edge>>, edges: set<Edge>, j: nat)
    requires IsImport(source, b, results, edges) && b.edges == 0 && Distinct(source.table)
    requires j < b.packages && b.offset + j < |source.table|
    ensures exists batch ::
      1 <= |batch| <= 50 && source.table[b.offset + j] in batch && Normalised(source.normalize, source.answer(batch, None)) <= edges
  {
    var i, name := j / PACKAGE_WINDOW, source.table[b.offset + j];
    InWindow(source, b, j);
    hide IsImport, FrontierOf, WindowAt, WindowCount, Normalised;
    BelowLimitAsked(source, b, results, edges, i, name);
    var batch, limit :| IsBatch(FrontierOf(source, b, i), batch) && name in batch && LimitFor(0, limit)
      && Normalised(source.normalize, source.answer(batch, limit)) <= edges;
  }

  lemma InWindow(source: Source, b: Budget, j: nat)
    requires b.edges == 0 && Distinct(source.table) && j < b.packages && b.offset + j < |source.table|
    ensures var i := j / PACKAGE_WINDOW;
      && i < WindowCount(b.packages) && WindowAt(b.packages, b.offset, b.edges, i).edges == 0
      && source.table[b.offset + j] in FrontierOf(source, b, i)
  {
    var i := j / PACKAGE_WINDOW;
    var w := WindowAt(b.packages, b.offset, b.edges, i);
    FirstOfDistinct(source.table, w.packages, w.offset);
    assert Page(source.table, w.packages, w.offset)[j - PACKAGE_WINDOW * i] == source.table[b.offset + j];
  }

  // ----- how a quota is shared among the batches

  /** Each batch returns as many different edges as it is asked for, and no two the same. */
  ghost predicate Plenty(batches: seq<seq<Name>>, answer: Answer) {
    && (forall n, l: nat :: 0 <= n < |batches| && l > 0 ==> |answer(batches[n], Some(l))| == l && Distinct(answer(batches[n], Some(l))))
    && (forall m, n, k: nat, l: nat, e :: 0 <= m < n < |batches| && e in answer(batches[m], Some(k)) ==> e !in answer(batches[n], Some(l)))
  }

  /** The answers to a fair split of the quota, as far as batch `n`. */
  ghost function FairAnswers(batches: seq<seq<Name>>, n: nat, quota: nat, answer: Answer): seq<Edge>
    requires n <= |batches|
  {
    if n == 0 then []
    else
      var share := Share(quota, |batches|, n - 1);
      FairAnswers(batches, n - 1, quota, answer) + if share > 0 then answer(batches[n - 1], Some(share)) else []
  }

  lemma DistinctAppended(q: seq<Edge>, r: seq<Edge>)
    requires Distinct(q) && Distinct(r) && forall e :: e in q ==> e !in r
    ensures Distinct(q + r)
  {
    forall i, j | 0 <= i < j < |q + r| ensures (q + r)[i] != (q + r)[j] {
      if i < |q| <= j { assert q[i] in q && r[j - |q|] in r; }
    }
  }

  lemma {:induction false} FairAnswersFill(batches: seq<seq<Name>>, n: nat, quota: nat, answer: Answer)
    requires n <= |batches| && |batches| > 0 && Plenty(batches, answer)
    ensures Distinct(FairAnswers(batches, n, quota, answer))
    ensures |FairAnswers(batches, n, quota, answer)| == quota - Left(quota, |batches|, n)
    ensures forall e :: e in FairAnswers(batches, n, quota, answer) ==> exists m, k: nat :: 0 <= m < n && e in answer(batches[m], Some(k))
  {
    hide Share, Left;
    LeftAtStart(quota, |batches|);
    if n > 0 {
      FairAnswersFill(batches, n - 1, quota, answer);
      GreedyIsFair(quota, |batches|, n - 1);
      var before, share := FairAnswers(batches, n - 1, quota, answer), Share(quota, |batches|, n - 1);
      if share > 0 {
        var rows := answer(batches[n - 1], Some(share));
        forall e | e in before ensures e !in rows {
          var m, k: nat :| 0 <= m < n - 1 && e in answer(batches[m], Some(k));
        }
        DistinctAppended(before, rows);
      }
    }
  }

  lemma FairStep(batches: seq<seq<Name>>, n: nat, quota: nat, answer: Answer, edges: seq<Edge>)
    requires n < |batches| && quota > 0 && Plenty(batches, answer)
    requires edges == FairAnswers(batches, n, quota, answer) && |edges| < quota
    ensures Gather(batches, n, quota, answer, edges) == Gather(batches, n + 1, quota, answer, FairAnswers(batches, n + 1, quota, answer))
  {
    hide Share, Left, CeilDiv, Dedupe, Distinct, Gather, Plenty;
    FairAnswersFill(batches, n, quota, answer);
    FairAnswersFill(batches, n + 1, quota, answer);
    GreedyIsFair(quota, |batches|, n);
    BatchLimit(quota - |edges|, |batches| - n);
    DedupeDistinct(FairAnswers(batches, n + 1, quota, answer));
    GatherStep(batches, n, quota, answer, edges, Some(Share(quota, |batches|, n)));
  }

  lemma {:induction false} GatherFrom(batches: seq<seq<Name>>, n: nat, quota: nat, answer: Answer)
    requires n <= |batches| && |batches| > 0 && quota > 0 && Plenty(batches, answer)
    ensures Gather(batches, n, quota, answer, FairAnswers(batches, n, quota, answer)) == FairAnswers(batches, |batches|, quota, answer)
    decreases |batches| - n
  {
    hide Share, Left, Gather, Plenty;
    var edges := FairAnswers(batches, n, quota, answer);
    FairAnswersFill(batches, n, quota, answer);
    if n == |batches| {
      GatherEnd(batches, n, quota, answer, edges);
    } else {
      GatherFrom(batches, n + 1, quota, answer);
      if |edges| < quota {
        FairStep(batches, n, quota, answer, edges);
      } else {
        GreedyIsFair(quota, |batches|, n);
        assert FairAnswers(batches, n + 1, quota, answer) == edges + [] == edges;
        GatherEnd(batches, n, quota, answer, edges);
        GatherEnd(batches, n + 1, quota, answer, edges);
      }
    }
  }

  /** When every batch has plenty of edges, a query fills its quota exactly, and asks each
      batch for its fair share of it. */
  lemma GatherIsFair(frontier: seq<Name>, quota: nat, answer: Answer)
    requires frontier != [] && quota > 0 && Plenty(Batches(frontier), answer)
    ensures var batches := Batches(frontier); var edges := Gather(batches, 0, quota, answer, []);
      edges == FairAnswers(batches, |batches|, quota, answer) && |edges| == quota
  {
    hide Gather, Plenty;
    var batches := Batches(frontier);
    LeftAtStart(quota, |batches|);
    GatherFrom(batches, 0, quota, answer);
    FairAnswersFill(batches, |batches|, quota, answer);
  }

  // ----- when the edge limit holds

  lemma {:induction false} NormalisedSize(normalize: Name -> Name, rows: seq<Edge>)
    ensures |Normalised(normalize, rows)| <= |rows|
  {
    if rows == [] {
      assert Normalised(normalize, rows) == {};
    } else {
      var n := |rows| - 1;
      NormalisedSize(normalize, rows[..n]);
      NormalisedNext(normalize, rows, n);
      assert rows[..n + 1] == rows;
    }
  }

  lemma {:induction false} WithinQuotas(source: Source, b: Budget, results: seq<seq<Edge>>)
    requires IsRun(source, b, results) && WindowCount(b.packages) > 0 && b.edges >= WindowCount(b.packages)
    ensures |Imported(source.normalize, results)| <= EdgeSum(Windows(b.packages, b.offset, b.edges)[..|results|])
  {
    if results != [] {
      var n := |results| - 1;
      var w := Windows(b.packages, b.offset, b.edges);
      ShorterRun(source, b, results);
      ResultWithinQuota(source, b, results);
      NormalisedSize(source.normalize, results[n]);
      assert |Imported(source.normalize, results)| <= |Imported(source.normalize, results[..n])| + |Normalised(source.normalize, results[n])|;
      hide Imported, Normalised, IsRun, Windows;
      WithinQuotas(source, b, results[..n]);
      EdgeSumNext(w, n);
    }
  }

  lemma EdgeSumNext(w: seq<Window>, n: nat)
    requires n < |w|
    ensures EdgeSum(w[..n + 1]) == EdgeSum(w[..n]) + w[n].edges
  {
    assert w[..n + 1][..n] == w[..n];
  }

  lemma ResultWithinQuota(source: Source, b: Budget, results: seq<seq<Edge>>)
    requires IsRun(source, b, results) && results != [] && b.edges >= WindowCount(b.packages)
    ensures var n := |results| - 1;
            n < |Windows(b.packages, b.offset, b.edges)| && |results[n]| <= Windows(b.packages, b.offset, b.edges)[n].edges
  {
    var n := |results| - 1;
    QuotasAreFair(b.packages, b.offset, b.edges, n, n);
    hide CeilDiv, Share, Imported, Reached, Gather, Batches;
    assert WindowResult(source, b, n, results[n]);
    var batches := Batches(FrontierOf(source, b, n));
    var quota := WindowAt(b.packages, b.offset, b.edges, n).edges;
    GatherStart(batches, quota, source.answer);
    GatherGathers(batches, 0, quota, source.answer, []);
  }

  lemma ShorterRun(source: Source, b: Budget, results: seq<seq<Edge>>)
    requires IsRun(source, b, results) && results != []
    ensures IsRun(source, b, results[..|results| - 1])
  {
    hide WindowResult, Reached, Imported, WindowCount;
    var n := |results| - 1;
    forall i | 0 <= i < n ensures !Reached(b, Imported(source.normalize, results[..n][..i])) {
      assert results[..n][..i] == results[..i];
    }
  }

  /** With at least one edge per window, no import keeps more edges than the limit. */
  lemma EdgeLimitHeld(source: Source, b: Budget, results: seq<seq<Edge>>, edges: set<Edge>)
    requires IsImport(source, b, results, edges)
    requires b.packages > 0 && b.edges >= WindowCount(b.packages)
    ensures |edges| <= b.edges
  {
    WithinQuotas(source, b, results);
    EdgesOfFirst(b.packages, b.offset, b.edges, |results|);
  }

  /** A table and a query under which the first windows find nothing, and a window whose quota
      came out as zero is asked without a limit and finds one edge too many. */
  function Flood(b: Budget): Source {
    Source(seq(b.offset + b.packages, i => i),
           (batch, limit: Option<nat>) => if limit == None then EdgesFromZero(b.edges + 1) else [],
           Same)
  }

  function Same(name: Name): Name { name }

  function EdgesFromZero(n: nat): seq<Edge> { seq(n, i requires 0 <= i => (0, i + 1)) }

  lemma FloodFrontier(b: Budget)
    requires 0 < b.edges < WindowCount(b.packages)
    ensures Batches(FrontierOf(Flood(b), b, b.edges)) != []
  {
    var table := Flood(b).table;
    FirstOfDistinct(table, WindowAt(b.packages, b.offset, b.edges, b.edges).packages, b.offset + PACKAGE_WINDOW * b.edges);
  }

  /** A query that answers nothing to a limit leaves a window with a quota without edges. */
  lemma {:induction false} NothingGathered(batches: seq<seq<Name>>, n: nat, quota: nat, answer: Answer)
    requires n <= |batches| && quota > 0 && forall batch, limit: Option<nat> :: limit.Some? ==> answer(batch, limit) == []
    ensures Gather(batches, n, quota, answer, []) == []
    decreases |batches| - n
  {
    hide CeilDiv;
    if n < |batches| {
      var limit := Some(CeilDiv(quota, |batches| - n));
      assert [] + answer(batches[n], limit) == [];
      NothingGathered(batches, n + 1, quota, answer);
    }
  }

  lemma DedupeAgain(edges: seq<Edge>)
    requires Distinct(edges)
    ensures Dedupe(edges + edges) == edges && Dedupe([] + edges) == edges
  {
    DedupeDistinct(edges);
    assert [] + edges == edges;
    DedupeRepeats(edges, |edges|);
    assert edges[..|edges|] == edges;
  }

  lemma {:induction false} DedupeRepeats(edges: seq<Edge>, n: nat)
    requires Distinct(edges) && n <= |edges|
    ensures Dedupe(edges + edges[..n]) == edges
  {
    hide Distinct, Dedupe;
    if n == 0 {
      DedupeDistinct(edges);
      assert edges + edges[..0] == edges;
    } else {
      DedupeRepeats(edges, n - 1);
      NextAppended(edges, edges, n - 1);
      DedupeSnoc(edges + edges[..n - 1], edges[n - 1]);
    }
  }

  /** A query that answers the same to every request without a limit fills a window without
      a quota with just that. */
  lemma {:induction false} SameGathered(batches: seq<seq<Name>>, n: nat, answer: Answer, rows: seq<Edge>, edges: seq<Edge>)
    requires n <= |batches| && Distinct(rows) && forall batch :: answer(batch, None) == rows
    requires edges == rows || (edges == [] && n < |batches|)
    ensures Gather(batches, n, 0, answer, edges) == rows
    decreases |batches| - n
  {
    hide Distinct, Dedupe;
    if n < |batches| {
      DedupeAgain(rows);
      GatherStep(batches, n, 0, answer, edges, None);
      SameGathered(batches, n + 1, answer, rows, rows);
    } else {
      GatherEnd(batches, n, 0, answer, edges);
    }
  }

  lemma FloodResult(b: Budget, i: nat, rows: seq<Edge>)
    requires 0 < b.edges < WindowCount(b.packages) && i <= b.edges
    requires rows == if i < b.edges then [] else EdgesFromZero(b.edges + 1)
    ensures WindowResult(Flood(b), b, i, rows)
  {
    hide CeilDiv, Batches, FirstNames, Gather, Dedupe;
    var source := Flood(b);
    var batches := Batches(FrontierOf(source, b, i));
    QuotasAreFair(b.packages, b.offset, b.edges, i, i);
    var quota := WindowAt(b.packages, b.offset, b.edges, i).edges;
    if i < b.edges {
      NothingGathered(batches, 0, quota, source.answer);
    } else {
      FloodFrontier(b);
      SameGathered(batches, 0, source.answer, rows, []);
    }
  }

  lemma {:induction false} NothingImported(normalize: Name -> Name, n: nat)
    ensures Imported(normalize, seq(n, i => [])) == {}
  {
    if n > 0 {
      var none: seq<seq<Edge>> := seq(n, i => []);
      assert none[..n - 1] == seq(n - 1, i => []);
      NothingImported(normalize, n - 1);
    }
  }

  lemma {:induction false} FloodSize(n: nat)
    ensures |Normalised(Same, EdgesFromZero(n))| == n
    ensures forall e :: e in Normalised(Same, EdgesFromZero(n)) ==> e.1 <= n
  {
    var rows := EdgesFromZero(n);
    if n == 0 {
      assert Normalised(Same, rows) == {};
    } else {
      FloodSize(n - 1);
      assert rows[..n - 1] == EdgesFromZero(n - 1);
      assert rows[..n] == rows;
      NormalisedNext(Same, rows, n - 1);
      assert Normalised(Same, rows) == Normalised(Same, EdgesFromZero(n - 1)) + {(0, n)};
    }
  }

  /** With fewer edges than windows the limit is exceeded: some window has quota zero, which
      the query reads as no limit. */
  lemma EdgeLimitExceeded(b: Budget)
    requires 0 < b.edges < WindowCount(b.packages)
    ensures IsImport(Flood(b), b, FloodResults(b), Normalised(Same, EdgesFromZero(b.edges + 1)))
    ensures |Normalised(Same, EdgesFromZero(b.edges + 1))| == b.edges + 1
  {
    FloodNormalizes(b);
    hide WindowResult, Normalised, WindowCount, EdgesFromZero, Flood;
    var results := FloodResults(b);
    forall i | 0 <= i < |results|
      ensures WindowResult(Flood(b), b, i, results[i]) && Imported(Same, results[..i]) == {}
    {
      FloodResult(b, i, results[i]);
      assert results[..i] == seq(i, j => []);
      NothingImported(Same, i);
    }
    assert Imported(Same, results) == Imported(Same, results[..b.edges]) + Normalised(Same, EdgesFromZero(b.edges + 1));
    assert {} + Normalised(Same, EdgesFromZero(b.edges + 1)) == Normalised(Same, EdgesFromZero(b.edges + 1));
    FloodSize(b.edges + 1);
  }

  lemma FloodNormalizes(b: Budget)
    ensures Flood(b).normalize == Same
  {}

  function FloodResults(b: Budget): seq<seq<Edge>> { seq(b.edges, i => []) + [EdgesFromZero(b.edges + 1)] }

  /** A positive edge limit holds for whatever the queries return exactly when it allows each
      window at least one edge. */
  lemma EdgeLimitHeldIff(b: Budget)
    requires b.packages > 0 && b.edges > 0
    ensures (forall source, results, edges :: IsImport(source, b, results, edges) ==> |edges| <= b.edges)
       <==> b.edges >= WindowCount(b.packages)
  {
    hide *;
    if b.edges >= WindowCount(b.packages) {
      forall source, results, edges | IsImport(source, b, results, edges) ensures |edges| <= b.edges {
        EdgeLimitHeld(source, b, results, edges);
      }
    } else {
      EdgeLimitExceeded(b);
    }
  }
}
