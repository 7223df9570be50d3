/** A broaden run: batch after batch of unknown packages is crawled, and what the crawl
    records becomes known. */
module BroadenRun {
  import opened Wrappers
  import opened Ball
  import opened Sequences
  import opened Collector
  import opened BroadenSelection

  /** Stubs come with how often they were observed. */
  datatype Config = Config(registry: Registry, hot: seq<Package>, observations: map<Package, int>, census: seq<Package>,
                           batchSize: nat, maxDepth: nat, maxPackages: nat, concurrency: nat)

  /** Between two batches: what the graph store knows, the census cursor, and everything
      selected so far. */
  datatype State = State(known: set<Package>, cursor: nat, selected: seq<Package>, exhausted: bool)

  /** A record makes its package known, and an edge both its ends. */
  function Recorded(m: Material): set<Package> {
    m.packages.Keys + (set e | e in m.edges :: e.0) + (set e | e in m.edges :: e.1)
  }

  function PopularityFor(c: Config, selected: seq<Package>): map<Package, int> {
    map p | p in Members(selected) :: if p in c.observations then c.observations[p] else 0
  }

  ghost predicate Crawled(c: Config, selected: seq<Package>, done: set<Package>, m: Material) {
    && IsCrawl(c.registry, selected, c.maxDepth, c.maxPackages, done)
    && IsMaterial(c.registry, PopularityFor(c, selected), done, m)
  }

  /** One iteration; an empty selection is not crawled. */
  ghost predicate Step(c: Config, s: State, t: State, picked: Selection) {
    && IsSelection(c.hot, c.census, s.known, s.cursor, c.batchSize, picked)
    && t.cursor == picked.cursorAfter && t.exhausted == picked.exhausted
    && t.selected == s.selected + picked.selected
    && if picked.selected == [] then t.known == s.known
       else exists done, m :: Crawled(c, picked.selected, done, m) && t.known == s.known + Recorded(m)
  }

  ghost predicate IsStep(c: Config, s: State, t: State) { exists picked :: Step(c, s, t, picked) }

  /** The states of a run: it goes on until a batch exhausts the census. */
  ghost predicate IsRun(c: Config, run: seq<State>) {
    && |run| > 0 && run[0].selected == [] && !run[0].exhausted
    && forall i :: 0 <= i < |run| - 1 ==> !run[i].exhausted && IsStep(c, run[i], run[i + 1])
  }

  method Broaden(c: Config, s: State) returns (t: Result<State>)
    ensures t.Err? ==> c.maxPackages == 0 || c.concurrency == 0
    ensures t.Ok? ==> IsStep(c, s, t.value)
    ensures t.Ok? && (c.maxPackages == 0 || c.concurrency == 0) ==> t.value == s.(cursor := t.value.cursor, exhausted := t.value.exhausted)
  {
    hide IsSelection, IsCrawl, IsMaterial, Recorded;
    var picked := SelectBroadenBatch(c.hot, c.census, s.known, s.cursor, c.batchSize);
    var known := s.known;
    if picked.selected != [] {
      var material, done := CollectGraphMaterial(c.registry, PopularityFor(c, picked.selected), picked.selected,
                                                 c.maxDepth, c.maxPackages, c.concurrency);
      if material.Err? { return Err; }
      assert Crawled(c, picked.selected, done, material.value);
      known := s.known + Recorded(material.value);
    }
    assert s.selected + [] == s.selected;
    t := Ok(State(known, picked.cursorAfter, s.selected + picked.selected, picked.exhausted));
    assert Step(c, s, t.value, picked);
  }

  lemma RunGrows(c: Config, run: seq<State>, t: State)
    requires IsRun(c, run) && !run[|run| - 1].exhausted && IsStep(c, run[|run| - 1], t)
    ensures IsRun(c, run + [t])
  {
    hide IsStep;
  }

  lemma RunShrinks(c: Config, run: seq<State>)
    requires IsRun(c, run) && |run| > 1
    ensures IsRun(c, run[..|run| - 1])
    ensures !run[|run| - 2].exhausted && IsStep(c, run[|run| - 2], run[|run| - 1])
  {
    hide IsStep;
    var n := |run| - 1;
    assert run[n] == run[n - 1 + 1];
    forall i | 0 <= i < n - 1 ensures !run[..n][i].exhausted && IsStep(c, run[..n][i], run[..n][i + 1]) {
      assert !run[i].exhausted;
    }
  }

  /** The command; it fails when a crawl cannot start. */
  method RunBroaden(c: Config, known: set<Package>, cursor: nat, iterations: nat)
    returns (result: Result<State>, completed: nat, ghost run: seq<State>)
    ensures result.Err? ==> c.batchSize == 0 || c.maxPackages == 0 || c.concurrency == 0
    ensures c.batchSize == 0 ==> result.Err?
    ensures result.Ok? ==>
      && IsRun(c, run) && run[0] == State(known, cursor, [], false) && run[|run| - 1] == result.value
      && |run| == completed + 1
      && 1 <= completed <= (if iterations == 0 then 1 else iterations)
      && (result.value.exhausted || completed == if iterations == 0 then 1 else iterations)
  {
    var s := State(known, cursor, [], false);
    run := [s];
    completed := 0;
    if c.batchSize == 0 { return Err, completed, run; }
    assert IsRun(c, run);
    hide *;
    var limit := if iterations == 0 then 1 else iterations;
    while completed < limit
      invariant completed <= limit && |run| == completed + 1
      invariant run[0] == State(known, cursor, [], false) && run[|run| - 1] == s && IsRun(c, run)
      invariant !s.exhausted
    {
      var next := Broaden(c, s);
      if next.Err? { return Err, completed, run; }
      RunGrows(c, run, next.value);
      s := next.value;
      run := run + [s];
      completed := completed + 1;
      if s.exhausted { break; }
    }
    result := Ok(s);
  }

  // ----- what becomes known

  /** A package is recorded exactly when it was fetched for or a fetched package depends on it. */
  lemma RecordedIff(r: Registry, popularity: map<Package, int>, done: set<Package>, m: Material, p: Package)
    requires IsMaterial(r, popularity, done, m)
    ensures p in Recorded(m) <==> p in done || exists q :: q in done && p in Dependencies(r, q)
  {
    assert m.packages.Keys == done;
    if q :| q in done && p in Dependencies(r, q) { assert (q, p) in m.edges; }
    if p in Recorded(m) && p !in done {
      if e :| e in m.edges && e.1 == p { assert e == (e.0, e.1); }
    }
  }

  /** What a batch records of a package: a selected one counts as often as it was observed, as a
      stub or not at all; one the crawl came upon, what the registry says, if it says anything. */
  lemma PopularityIs(c: Config, selected: seq<Package>, done: set<Package>, m: Material, p: Package)
    requires Crawled(c, selected, done, m) && p in done
    ensures p in m.packages
    ensures p in selected && p in c.observations ==> m.packages[p] == Some(c.observations[p])
    ensures p in selected && p !in c.observations ==> m.packages[p] == Some(0)
    ensures p !in selected ==> m.packages[p] == if p in c.registry then c.registry[p].popularity else None
  {
    hide IsCrawl, EdgesFrom, Repositories, Missing, Fallbacks;
  }

  /** What a step adds to what is known: the packages of a crawl from the selected ones, with
      all they depend on, and nothing else; without a selection, nothing. */
  lemma StepKnows(c: Config, s: State, t: State, picked: Selection) returns (done: set<Package>)
    requires Step(c, s, t, picked)
    ensures if picked.selected == [] then done == {} else IsCrawl(c.registry, picked.selected, c.maxDepth, c.maxPackages, done)
    ensures forall p :: p in t.known <==> p in s.known || p in done || exists q :: q in done && p in Dependencies(c.registry, q)
  {
    hide IsSelection, IsCrawl, IsMaterial, Recorded;
    done := {};
    if picked.selected != [] {
      var d, m :| Crawled(c, picked.selected, d, m) && t.known == s.known + Recorded(m);
      done := d;
      forall p ensures p in Recorded(m) <==> p in done || exists q :: q in done && p in Dependencies(c.registry, q) {
        RecordedIff(c.registry, PopularityFor(c, picked.selected), done, m, p);
      }
    }
  }

  // ----- what every run keeps

  /** Everything selected is known, once each and new at the start, and the census is known up
      to the cursor. */
  ghost predicate Covers(c: Config, start: State, s: State) {
    && Distinct(s.selected)
    && start.known <= s.known
    && (forall p :: p in s.selected ==> p in s.known && p !in start.known && (p in c.hot || p in c.census))
    && StartOf(c.census, start.cursor) <= s.cursor
    && (forall i :: StartOf(c.census, start.cursor) <= i < s.cursor && i < |c.census| ==> c.census[i] in s.known)
  }

  lemma CrawlRecordsBatch(c: Config, picked: Selection, done: set<Package>, m: Material)
    requires |picked.selected| <= c.batchSize <= c.maxPackages && Crawled(c, picked.selected, done, m)
    ensures forall p :: p in picked.selected ==> p in Recorded(m)
  {
    MembersSize(picked.selected);
    SeedsCollected(c.registry, PopularityFor(c, picked.selected), picked.selected, c.maxDepth, c.maxPackages, done, m);
  }

  /** What one batch adds. */
  ghost predicate Adds(c: Config, s: State, t: State, selected: seq<Package>) {
    && t.selected == s.selected + selected && s.known <= t.known
    && Distinct(selected)
    && (forall p :: p in selected ==> p !in s.known && p in t.known && (p in c.hot || p in c.census))
    && StartOf(c.census, s.cursor) <= t.cursor <= |c.census|
    && (forall i :: StartOf(c.census, s.cursor) <= i < t.cursor ==> c.census[i] in t.known)
    && |selected| <= c.batchSize && (|selected| == c.batchSize || t.exhausted)
    && (t.exhausted <==> t.cursor == |c.census|)
  }

  lemma StepAdds(c: Config, s: State, t: State) returns (selected: seq<Package>)
    requires c.batchSize <= c.maxPackages && IsStep(c, s, t)
    ensures Adds(c, s, t, selected)
  {
    var picked :| Step(c, s, t, picked);
    selected := picked.selected;
    SelectionCovers(c.hot, c.census, s.known, s.cursor, c.batchSize, picked);
    assert StartOf(c.census, s.cursor) <= t.cursor <= |c.census| && |selected| <= c.batchSize;
    assert (|selected| == c.batchSize || t.exhausted) && (t.exhausted <==> t.cursor == |c.census|);
    hide IsSelection, Recorded, Crawled;
    if selected != [] {
      var done, m :| Crawled(c, selected, done, m) && t.known == s.known + Recorded(m);
      CrawlRecordsBatch(c, picked, done, m);
    }
  }

  lemma DistinctJoined(p: seq<Package>, q: seq<Package>)
    requires Distinct(p) && Distinct(q) && forall x :: x in q ==> x !in p
    ensures Distinct(p + q)
  {
    var r := p + q;
    forall i, j | 0 <= i < j < |r| ensures r[i] != r[j] {
      if i < |p| <= j { assert r[j] in q; }
    }
  }

  lemma StepCovers(c: Config, start: State, s: State, t: State, selected: seq<Package>)
    requires Covers(c, start, s) && Adds(c, s, t, selected)
    ensures Covers(c, start, t)
  {
    DistinctJoined(s.selected, selected);
    hide Distinct;
  }

  lemma StartCovered(c: Config, start: State)
    requires start.selected == []
    ensures Covers(c, start, start)
  {}

  /** When a batch fits a crawl: nothing is selected twice or was known before, everything
      selected and every census entry passed becomes known, and each batch that does not
      exhaust the census is full. */
  lemma {:induction false} RunCovers(c: Config, run: seq<State>)
    requires c.batchSize <= c.maxPackages && IsRun(c, run)
    ensures var last := run[|run| - 1];
            && Covers(c, run[0], last)
            && |last.selected| >= c.batchSize * (|run| - 1 - (if last.exhausted then 1 else 0))
  {
    var n := |run| - 1;
    if n == 0 {
      StartCovered(c, run[0]);
    } else {
      RunShrinks(c, run);
      RunCovers(c, run[..n]);
      var selected := StepAdds(c, run[n - 1], run[n]);
      StepCovers(c, run[0], run[n - 1], run[n], selected);
      hide Covers, IsStep;
      BatchesAdd(c.batchSize, n);
    }
  }

  lemma BatchesAdd(size: nat, n: nat)
    requires n > 0
    ensures size * (n - 1) + size == size * n
  {}

  lemma {:induction false} DistinctSize(q: seq<Package>, s: set<Package>)
    requires Distinct(q) && forall p :: p in q ==> p in s
    ensures |q| <= |s|
  {
    if q != [] {
      var last, front := q[|q| - 1], q[..|q| - 1];
      DistinctSize(front, s - {last});
    }
  }

  /** A run that has not exhausted the census has not had more batches than fit the packages
      there are, so enough iterations always exhaust it. */
  lemma ExhaustedInTime(c: Config, run: seq<State>)
    requires c.batchSize <= c.maxPackages && IsRun(c, run)
    requires c.batchSize * (|run| - 1) > |Members(c.hot) + Members(c.census)|
    ensures run[|run| - 1].exhausted
  {
    RunCovers(c, run);
    var selected := run[|run| - 1].selected;
    DistinctSize(selected, Members(c.hot) + Members(c.census));
  }

  // ----- when the census really is covered

  ghost predicate EndCovered(c: Config, run: seq<State>) { |run| > 0 && Covers(c, run[0], run[|run| - 1]) }

  ghost predicate AlwaysCovers(batchSize: nat, maxPackages: nat) {
    forall c: Config, run: seq<State> :: c.batchSize == batchSize && c.maxPackages == maxPackages && IsRun(c, run) ==> EndCovered(c, run)
  }

  /** No registry entry, and a census as large as the batch. */
  function Overfull(batchSize: nat, maxPackages: nat): Config {
    Config(map[], [], map[], Census(batchSize), batchSize, 0, maxPackages, 1)
  }

  function Census(n: nat): seq<Package> { seq(n, i requires 0 <= i => i) }

  function Below(n: nat): (s: set<Package>)
    ensures |s| == n && forall p: Package :: p in s <==> p < n
  {
    if n == 0 then {} else Below(n - 1) + {n - 1}
  }

  lemma {:induction false} CensusIsNews(n: nat)
    ensures News({}, Census(n)) == Census(n)
  {
    if n > 0 {
      CensusIsNews(n - 1);
      assert Census(n) == Census(n - 1) + [n - 1];
      NewsSnoc({}, Census(n - 1), n - 1);
    }
  }

  lemma OverfullPicks(n: nat) returns (picked: Selection)
    requires n > 0
    ensures picked.selected == Census(n) && IsSelection([], Census(n), {}, 0, n, picked)
  {
    picked := Selection(Census(n), n, n, 0, true);
    CensusIsNews(n);
    CensusIsNews(n - 1);
    assert Read([], 0, Census(n), 0, n) == Census(n) && Read([], 0, Census(n), 0, n - 1) == Census(n - 1);
    assert News({}, []) == [];
  }

  lemma CensusMembers(n: nat)
    ensures Members(Census(n)) == Below(n)
  {
    forall p: Package ensures p in Census(n) <==> p in Below(n) {
      if p < n { assert Census(n)[p] == p; }
    }
  }

  lemma BelowGrows(m: nat, n: nat)
    requires m <= n
    ensures Below(m) <= Below(n)
  {}

  lemma OneStepRun(c: Config, s: State, t: State)
    requires IsStep(c, s, t) && s.selected == [] && !s.exhausted
    ensures IsRun(c, [s, t])
  {
    hide IsStep;
  }

  lemma OneCrawl(c: Config, s: State, t: State, picked: Selection, done: set<Package>, m: Material)
    requires IsSelection(c.hot, c.census, s.known, s.cursor, c.batchSize, picked) && picked.selected != []
    requires Crawled(c, picked.selected, done, m)
    requires t == State(s.known + Recorded(m), picked.cursorAfter, s.selected + picked.selected, picked.exhausted)
    ensures IsStep(c, s, t)
  {
    hide IsSelection, Crawled, Recorded;
    assert Step(c, s, t, picked);
  }

  lemma OverfullIsCrawl(batchSize: nat, maxPackages: nat)
    requires maxPackages < batchSize
    ensures IsCrawl(map[], Census(batchSize), 0, maxPackages, Below(maxPackages))
  {
    hide Census, Below;
    CensusMembers(batchSize);
    BelowGrows(maxPackages, batchSize);
    SourcesOnly(Forward(map[]), Below(batchSize));
    assert Reach(map[], Census(batchSize), 0) == Below(batchSize);
    hide Reach;
    assert NearestFirst(Forward(map[]), Members(Census(batchSize)), 0, Below(maxPackages));
  }

  lemma OverfullMaterial(popularity: map<Package, int>, n: nat) returns (m: Material)
    ensures IsMaterial(map[], popularity, Below(n), m) && Recorded(m) == Below(n)
  {
    var done := Below(n);
    m := Material(Records(map[], popularity, done), {}, map[], n, 0);
    assert EdgesFrom(map[], done) == {};
    assert Collector.Repositories(map[], done) == map[];
    assert Missing(map[], done) == done;
    assert Fallbacks(map[], done) == {};
  }

  lemma NotCovered(c: Config, s: State, t: State, n: nat)
    requires t.known == Below(n) && n < |t.selected| && t.selected[n] == n
    ensures !EndCovered(c, [s, t])
  {
    assert n in t.selected;
  }

  lemma OverfullRun(batchSize: nat, maxPackages: nat) returns (c: Config, run: seq<State>)
    requires maxPackages < batchSize
    ensures c.batchSize == batchSize && c.maxPackages == maxPackages && IsRun(c, run) && !EndCovered(c, run)
  {
    hide IsCrawl, IsMaterial, Recorded, IsSelection, IsStep, IsRun, Below, PopularityFor, EndCovered;
    c := Overfull(batchSize, maxPackages);
    var census, known := Census(batchSize), Below(maxPackages);
    var picked := OverfullPicks(batchSize);
    OverfullIsCrawl(batchSize, maxPackages);
    var m := OverfullMaterial(PopularityFor(c, census), maxPackages);
    assert Crawled(c, census, known, m);
    assert census[maxPackages] == maxPackages && census != [];
    hide *;
    var s, t := State({}, 0, [], false), State(known, picked.cursorAfter, census, picked.exhausted);
    assert [] + census == census && {} + known == known;
    OneCrawl(c, s, t, picked, known, m);
    OneStepRun(c, s, t);
    run := [s, t];
    NotCovered(c, s, t, maxPackages);
  }

  /** Every run covers the census it passes exactly when a crawl can hold a batch: packages
      that do not fit are never fetched, and the cursor has already passed them. */
  lemma AlwaysCoversIff(batchSize: nat, maxPackages: nat)
    ensures AlwaysCovers(batchSize, maxPackages) <==> batchSize <= maxPackages
  {
    if batchSize <= maxPackages {
      forall c: Config, run: seq<State> | c.batchSize == batchSize && c.maxPackages == maxPackages && IsRun(c, run)
        ensures EndCovered(c, run)
      {
        RunCovers(c, run);
      }
    } else {
      hide IsRun, EndCovered;
      var c, run := OverfullRun(batchSize, maxPackages);
    }
  }
}
