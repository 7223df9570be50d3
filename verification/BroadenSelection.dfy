/** Picking the next batch of unknown packages: recent stubs first, then the census. */
module BroadenSelection {
  import opened Ball
  import opened Sequences
  import opened Naturals

  function Unknown(known: set<Package>, q: seq<Package>): seq<Package> {
    if q == [] then [] else Unknown(known, q[..|q| - 1]) + (if q[|q| - 1] in known then [] else [q[|q| - 1]])
  }

  /** The unknown packages, each once. */
  function News(known: set<Package>, q: seq<Package>): seq<Package> { Dedupe(Unknown(known, q)) }

  lemma NewsSnoc(known: set<Package>, q: seq<Package>, p: Package)
    ensures News(known, q + [p]) == if p in known || p in News(known, q) then News(known, q) else News(known, q) + [p]
  {
    assert (q + [p])[..|q|] == q;
    var rest := Unknown(known, q);
    if p in known {
      assert rest + [] == rest;
    } else {
      DedupeSnoc(rest, p);
    }
  }

  lemma {:induction false} InUnknown(known: set<Package>, q: seq<Package>, p: Package)
    ensures p in Unknown(known, q) <==> p in q && p !in known
  {
    if q != [] {
      InUnknown(known, q[..|q| - 1], p);
      assert q == q[..|q| - 1] + [q[|q| - 1]];
    }
  }

  lemma NewsFacts(known: set<Package>, q: seq<Package>)
    ensures Distinct(News(known, q)) && forall p :: p in News(known, q) <==> p in q && p !in known
  {
    DedupeFacts(Unknown(known, q));
    forall p ensures p in Unknown(known, q) <==> p in q && p !in known { InUnknown(known, q, p); }
  }

  datatype Selection = Selection(selected: seq<Package>, cursorAfter: nat, scanned: nat, hotStubSelected: nat, exhausted: bool)

  function StartOf(census: seq<Package>, cursor: nat): nat { Min(cursor, |census|) }

  /** What was read: stubs, then census entries from the cursor on. */
  function Read(hot: seq<Package>, stubs: nat, census: seq<Package>, start: nat, end: nat): seq<Package>
    requires stubs <= |hot| && start <= end <= |census|
  {
    hot[..stubs] + census[start..end]
  }

  /** The selection is exactly the news in what was read, and reading stops as soon as the
      batch is full. */
  ghost predicate IsSelection(hot: seq<Package>, census: seq<Package>, known: set<Package>, cursor: nat, batchSize: nat, s: Selection) {
    var start := StartOf(census, cursor);
    && start <= s.cursorAfter <= |census|
    && 0 <= s.scanned - (s.cursorAfter - start) <= |hot|
    && var stubs := s.scanned - (s.cursorAfter - start);
    && s.selected == News(known, Read(hot, stubs, census, start, s.cursorAfter))
    && s.hotStubSelected == |News(known, hot[..stubs])|
    && |s.selected| <= batchSize
    && (stubs == |hot| || s.hotStubSelected == batchSize)
    && (stubs > 0 ==> |News(known, hot[..stubs - 1])| < batchSize)
    && (s.cursorAfter < |census| ==> |s.selected| == batchSize)
    && (s.cursorAfter > start ==> |News(known, Read(hot, stubs, census, start, s.cursorAfter - 1))| < batchSize)
    && (s.exhausted <==> s.cursorAfter == |census|)
  }

  /** The stub loop: how many were read, and what was picked. */
  method SelectStubs(hot: seq<Package>, known: set<Package>, batchSize: nat) returns (selected: seq<Package>, scanned: nat, hotStubSelected: nat)
    ensures scanned <= |hot| && selected == News(known, hot[..scanned]) && hotStubSelected == |selected| <= batchSize
    ensures scanned == |hot| || |selected| == batchSize
    ensures scanned > 0 ==> |News(known, hot[..scanned - 1])| < batchSize
  {
    selected, scanned, hotStubSelected := [], 0, 0;
    for n := 0 to |hot|
      invariant scanned == n && selected == News(known, hot[..n]) && hotStubSelected == |selected| <= batchSize
      invariant n > 0 ==> |News(known, hot[..n - 1])| < batchSize
    {
      if |selected| >= batchSize { return; }
      assert hot[..n + 1] == hot[..n] + [hot[n]];
      NewsSnoc(known, hot[..n], hot[n]);
      hide News;
      scanned := scanned + 1;
      if hot[n] in known || hot[n] in selected { continue; }
      selected := selected + [hot[n]];
      hotStubSelected := hotStubSelected + 1;
    }
    assert hot[..|hot|] == hot;
  }

  method SelectBroadenBatch(hot: seq<Package>, census: seq<Package>, known: set<Package>, cursor: nat, batchSize: nat) returns (s: Selection)
    ensures IsSelection(hot, census, known, cursor, batchSize, s)
  {
    hide News;
    var selected, scanned, hotStubSelected := SelectStubs(hot, known, batchSize);
    ghost var stubs := scanned;
    var start := StartOf(census, cursor);
    var index := start;
    assert Read(hot, stubs, census, start, start) == hot[..stubs];
    while index < |census| && |selected| < batchSize
      invariant start <= index <= |census| && scanned == stubs + (index - start)
      invariant selected == News(known, Read(hot, stubs, census, start, index)) && |selected| <= batchSize
      invariant index > start ==> |News(known, Read(hot, stubs, census, start, index - 1))| < batchSize
    {
      var record := census[index];
      assert Read(hot, stubs, census, start, index + 1) == Read(hot, stubs, census, start, index) + [record];
      NewsSnoc(known, Read(hot, stubs, census, start, index), record);
      scanned := scanned + 1;
      if record !in known && record !in selected { selected := selected + [record]; }
      index := index + 1;
    }
    s := Selection(selected, index, scanned, hotStubSelected, index >= |census|);
  }

  lemma ReadMembers(hot: seq<Package>, stubs: nat, census: seq<Package>, start: nat, end: nat)
    requires stubs <= |hot| && start <= end <= |census|
    ensures forall p :: p in Read(hot, stubs, census, start, end) ==> p in hot || p in census
    ensures forall i :: start <= i < end ==> census[i] in Read(hot, stubs, census, start, end)
  {
    var read := Read(hot, stubs, census, start, end);
    forall i | start <= i < end ensures census[i] in read { assert read[stubs + (i - start)] == census[i]; }
  }

  /** Everything read is known or selected, and everything selected is new. */
  lemma SelectionCovers(hot: seq<Package>, census: seq<Package>, known: set<Package>, cursor: nat, batchSize: nat, s: Selection)
    requires IsSelection(hot, census, known, cursor, batchSize, s)
    ensures Distinct(s.selected) && forall p :: p in s.selected ==> p !in known && (p in hot || p in census)
    ensures forall i :: StartOf(census, cursor) <= i < s.cursorAfter ==> census[i] in known || census[i] in s.selected
  {
    var start := StartOf(census, cursor);
    var stubs := s.scanned - (s.cursorAfter - start);
    NewsFacts(known, Read(hot, stubs, census, start, s.cursorAfter));
    ReadMembers(hot, stubs, census, start, s.cursorAfter);
    hide News, Read, Distinct;
  }

  lemma {:induction false} NewsGrows(known: set<Package>, p: seq<Package>, q: seq<Package>)
    ensures |News(known, p)| <= |News(known, p + q)|
  {
    hide News;
    if q == [] {
      assert p + q == p;
    } else {
      var n := |q| - 1;
      NewsGrows(known, p, q[..n]);
      assert p + q == (p + q[..n]) + [q[n]];
      NewsSnoc(known, p + q[..n], q[n]);
    }
  }

  lemma PrefixGrows(known: set<Package>, q: seq<Package>, a: nat, b: nat)
    requires a <= b <= |q|
    ensures |News(known, q[..a])| <= |News(known, q[..b])|
  {
    NewsGrows(known, q[..a], q[a..b]);
    assert q[..a] + q[a..b] == q[..b];
  }

  lemma ReadGrows(known: set<Package>, hot: seq<Package>, stubs: nat, census: seq<Package>, start: nat, a: nat, b: nat)
    requires stubs <= |hot| && start <= a <= b <= |census|
    ensures |News(known, Read(hot, stubs, census, start, a))| <= |News(known, Read(hot, stubs, census, start, b))|
  {
    NewsGrows(known, Read(hot, stubs, census, start, a), census[a..b]);
    assert Read(hot, stubs, census, start, a) + census[a..b] == Read(hot, stubs, census, start, b);
  }

  function Stubs(census: seq<Package>, cursor: nat, s: Selection): int { s.scanned - (s.cursorAfter - StartOf(census, cursor)) }

  lemma SameStubs(hot: seq<Package>, census: seq<Package>, known: set<Package>, cursor: nat, batchSize: nat, s: Selection, t: Selection)
    requires IsSelection(hot, census, known, cursor, batchSize, s) && IsSelection(hot, census, known, cursor, batchSize, t)
    ensures Stubs(census, cursor, s) >= Stubs(census, cursor, t)
  {
    hide News;
    var a, b := Stubs(census, cursor, s), Stubs(census, cursor, t);
    if a < b { PrefixGrows(known, hot, a, b - 1); }
  }

  lemma SameCursor(hot: seq<Package>, census: seq<Package>, known: set<Package>, cursor: nat, batchSize: nat, s: Selection, t: Selection)
    requires IsSelection(hot, census, known, cursor, batchSize, s) && IsSelection(hot, census, known, cursor, batchSize, t)
    requires Stubs(census, cursor, s) == Stubs(census, cursor, t)
    ensures s.cursorAfter >= t.cursorAfter
  {
    hide News;
    var start, stubs := StartOf(census, cursor), Stubs(census, cursor, s);
    if s.cursorAfter < t.cursorAfter { ReadGrows(known, hot, stubs, census, start, s.cursorAfter, t.cursorAfter - 1); }
  }

  /** There is only one such selection. */
  lemma SelectionUnique(hot: seq<Package>, census: seq<Package>, known: set<Package>, cursor: nat, batchSize: nat, s: Selection, t: Selection)
    requires IsSelection(hot, census, known, cursor, batchSize, s) && IsSelection(hot, census, known, cursor, batchSize, t)
    ensures s == t
  {
    hide News, Read;
    SameStubs(hot, census, known, cursor, batchSize, s, t);
    SameStubs(hot, census, known, cursor, batchSize, t, s);
    SameCursor(hot, census, known, cursor, batchSize, s, t);
    SameCursor(hot, census, known, cursor, batchSize, t, s);
  }
}
