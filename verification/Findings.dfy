/** Splitting flagged releases into those still active and those a later clean release of the
    same package has cleaned. */
module Findings {
  import opened Sorting

  datatype Severity = High | Warning | Lesser

  /** A release with its assessment. Packages are (ecosystem, name) pairs, and event ids are
      compared, so numbers stand for both. */
  datatype Candidate = Candidate(observedAt: int, eventId: nat, package: nat, version: nat,
                                 flagged: bool, severity: Severity, suspicious: bool)

  datatype Cleaned = Cleaned(finding: Candidate, cleanedAt: int, cleanedBy: nat, cleanedByVersion: nat)

  datatype Counts = Counts(high: nat, warning: nat, suspicious: nat, cleaned: nat)

  function Rank(s: Severity): nat { match s case High => 3 case Warning => 2 case Lesser => 1 }

  // ----- the three orders

  predicate ByTime(x: Candidate, y: Candidate) { x.observedAt < y.observedAt || (x.observedAt == y.observedAt && x.eventId <= y.eventId) }

  /** Most severe first, then latest first. */
  predicate ActiveOrder(x: Candidate, y: Candidate) {
    Rank(x.severity) > Rank(y.severity) || (x.severity == y.severity && ByTime(y, x))
  }

  /** Latest cleaned first, then most severe first. */
  predicate CleanedOrder(x: Cleaned, y: Cleaned) {
    || x.cleanedAt > y.cleanedAt
    || (x.cleanedAt == y.cleanedAt && Rank(x.finding.severity) > Rank(y.finding.severity))
    || (x.cleanedAt == y.cleanedAt && x.finding.severity == y.finding.severity && x.finding.eventId >= y.finding.eventId)
  }

  lemma OrdersAreTotal()
    ensures TotalOrder(ByTime) && TotalOrder(ActiveOrder) && TotalOrder(CleanedOrder)
  {}

  // ----- what follows a flagged release

  predicate Cleans(c: Candidate, package: nat) { !c.flagged && c.package == package }

  /** The first clean release of a package. */
  function FirstClean(q: seq<Candidate>, package: nat): (r: seq<Candidate>)
    ensures |r| <= 1
  {
    if q == [] then [] else if Cleans(q[0], package) then [q[0]] else FirstClean(q[1..], package)
  }

  function CleanedBy(c: Candidate, clean: Candidate): Cleaned { Cleaned(c, clean.observedAt, clean.eventId, clean.version) }

  function ActiveHead(x: Candidate, rest: seq<Candidate>): (r: seq<Candidate>)
    ensures |r| <= 1
  {
    if x.flagged && FirstClean(rest, x.package) == [] then [x] else []
  }

  function CleanedHead(x: Candidate, rest: seq<Candidate>): seq<Cleaned> {
    if x.flagged && FirstClean(rest, x.package) != [] then [CleanedBy(x, FirstClean(rest, x.package)[0])] else []
  }

  /** The flagged releases that nothing cleans. */
  function ActiveOf(q: seq<Candidate>): seq<Candidate> {
    if q == [] then [] else ActiveHead(q[0], q[1..]) + ActiveOf(q[1..])
  }

  /** The others, each with the first release that cleans it. */
  function CleanedOf(q: seq<Candidate>): seq<Cleaned> {
    if q == [] then [] else CleanedHead(q[0], q[1..]) + CleanedOf(q[1..])
  }

  function OfPackage(q: seq<Candidate>, package: nat): seq<Candidate> {
    if q == [] then [] else (if q[0].package == package then [q[0]] else []) + OfPackage(q[1..], package)
  }

  function OfOthers(q: seq<Candidate>, package: nat): seq<Candidate> {
    if q == [] then [] else (if q[0].package != package then [q[0]] else []) + OfOthers(q[1..], package)
  }

  function AllCleanedBy(q: seq<Candidate>, clean: Candidate): seq<Cleaned> {
    if q == [] then [] else [CleanedBy(q[0], clean)] + AllCleanedBy(q[1..], clean)
  }

  // ----- one more release

  lemma {:induction false} FirstCleanSnoc(q: seq<Candidate>, c: Candidate, package: nat)
    ensures FirstClean(q + [c], package) ==
      if FirstClean(q, package) != [] then FirstClean(q, package) else if Cleans(c, package) then [c] else []
  {
    if q == [] {
      assert q + [c] == [c];
    } else {
      FirstCleanSnoc(q[1..], c, package);
      assert (q + [c])[1..] == q[1..] + [c];
    }
  }

  lemma ActiveCons(x: Candidate, rest: seq<Candidate>)
    ensures ActiveOf([x] + rest) == ActiveHead(x, rest) + ActiveOf(rest)
    ensures CleanedOf([x] + rest) == CleanedHead(x, rest) + CleanedOf(rest)
  {
    assert ([x] + rest)[1..] == rest;
  }

  lemma HeadActive(x: Candidate, rest: seq<Candidate>, c: Candidate)
    ensures ActiveHead(x, rest + [c]) == if c.flagged then ActiveHead(x, rest) else OfOthers(ActiveHead(x, rest), c.package)
  {
    FirstCleanSnoc(rest, c, x.package);
    assert [x][1..] == [];
  }

  lemma {:induction false} ActiveSnoc(q: seq<Candidate>, c: Candidate)
    ensures ActiveOf(q + [c]) == if c.flagged then ActiveOf(q) + [c] else OfOthers(ActiveOf(q), c.package)
  {
    hide *;
    if q == [] {
      assert q + [c] == [c];
      OneRelease(c);
    } else {
      var x, rest := q[0], q[1..];
      ActiveSnoc(rest, c);
      assert q == [x] + rest && q + [c] == [x] + (rest + [c]);
      ActiveCons(x, rest);
      ActiveCons(x, rest + [c]);
      HeadActive(x, rest, c);
      OthersAppend(ActiveHead(x, rest), ActiveOf(rest), c.package);
    }
  }

  lemma {:induction false} OthersAppend(p: seq<Candidate>, q: seq<Candidate>, package: nat)
    requires |p| <= 1
    ensures OfOthers(p + q, package) == OfOthers(p, package) + OfOthers(q, package)
  {
    if p == [] {
      assert p + q == q;
    } else {
      assert (p + q)[1..] == q && p[1..] == [];
    }
  }

  lemma PackageAppend(p: seq<Candidate>, q: seq<Candidate>, package: nat)
    requires |p| <= 1
    ensures OfPackage(p + q, package) == OfPackage(p, package) + OfPackage(q, package)
  {
    if p == [] {
      assert p + q == q;
    } else {
      assert (p + q)[1..] == q && p[1..] == [];
    }
  }

  /** What a release adds to the cleaned ones. */
  function NewlyCleaned(active: seq<Candidate>, c: Candidate): seq<Cleaned> {
    if c.flagged then [] else AllCleanedBy(OfPackage(active, c.package), c)
  }

  lemma NewlyCleanedAppend(p: seq<Candidate>, q: seq<Candidate>, c: Candidate)
    requires |p| <= 1
    ensures NewlyCleaned(p + q, c) == NewlyCleaned(p, c) + NewlyCleaned(q, c)
  {
    PackageAppend(p, q, c.package);
    CleanedByAppend(OfPackage(p, c.package), OfPackage(q, c.package), c);
  }

  lemma HeadCleaned(x: Candidate, rest: seq<Candidate>, c: Candidate)
    ensures CleanedHead(x, rest + [c]) == CleanedHead(x, rest) + NewlyCleaned(ActiveHead(x, rest), c)
  {
    FirstCleanSnoc(rest, c, x.package);
    assert AllCleanedBy([x], c) == [CleanedBy(x, c)] && [x][1..] == [];
    assert CleanedHead(x, rest) + [] == CleanedHead(x, rest);
    assert NewlyCleaned([], c) == [];
  }

  lemma OneRelease(c: Candidate)
    ensures ActiveOf([]) == [] && CleanedOf([]) == [] && CleanedOf([c]) == [] && NewlyCleaned([], c) == []
    ensures ActiveOf([c]) == if c.flagged then [c] else []
    ensures OfOthers([], c.package) == []
  {}

  /** A clean release cleans what was active of its package, and nothing else changes. */
  lemma {:induction false} CleanedSnoc(q: seq<Candidate>, c: Candidate)
    ensures multiset(CleanedOf(q + [c])) == multiset(CleanedOf(q)) + multiset(NewlyCleaned(ActiveOf(q), c))
  {
    hide *;
    if q == [] {
      assert q + [c] == [c];
      OneRelease(c);
    } else {
      var x, rest := q[0], q[1..];
      CleanedSnoc(rest, c);
      assert q == [x] + rest && q + [c] == [x] + (rest + [c]);
      ActiveCons(x, rest);
      ActiveCons(x, rest + [c]);
      HeadCleaned(x, rest, c);
      NewlyCleanedAppend(ActiveHead(x, rest), ActiveOf(rest), c);
    }
  }

  lemma CleanedByAppend(p: seq<Candidate>, q: seq<Candidate>, clean: Candidate)
    requires |p| <= 1
    ensures AllCleanedBy(p + q, clean) == AllCleanedBy(p, clean) + AllCleanedBy(q, clean)
  {
    if p == [] {
      assert p + q == q;
    } else {
      assert (p + q)[1..] == q && p[1..] == [];
    }
  }

  // ----- the code

  function Within(q: seq<Candidate>, packages: set<nat>): seq<Candidate> {
    if q == [] then [] else (if q[0].package in packages then [q[0]] else []) + Within(q[1..], packages)
  }

  lemma {:induction false} WithinMore(q: seq<Candidate>, packages: set<nat>, package: nat)
    requires package !in packages
    ensures multiset(Within(q, packages + {package})) == multiset(Within(q, packages)) + multiset(OfPackage(q, package))
  {
    if q != [] { WithinMore(q[1..], packages, package); }
  }

  lemma {:induction false} WithinAll(q: seq<Candidate>, packages: set<nat>)
    requires forall c :: c in q ==> c.package in packages
    ensures Within(q, packages) == q
  {
    if q != [] {
      WithinAll(q[1..], packages);
      assert q == [q[0]] + q[1..];
    }
  }

  lemma {:induction false} WithinNone(q: seq<Candidate>)
    ensures Within(q, {}) == []
  {
    if q != [] { WithinNone(q[1..]); }
  }

  lemma {:induction false} PackageOfOthers(q: seq<Candidate>, package: nat, other: nat)
    ensures OfPackage(OfOthers(q, other), package) == if package == other then [] else OfPackage(q, package)
  {
    if q != [] {
      PackageOfOthers(q[1..], package, other);
      PackageAppend(if q[0].package != other then [q[0]] else [], OfOthers(q[1..], other), package);
      assert [q[0]][1..] == [];
    }
  }

  lemma {:induction false} PackageSnoc(q: seq<Candidate>, c: Candidate, package: nat)
    ensures OfPackage(q + [c], package) == OfPackage(q, package) + (if c.package == package then [c] else [])
  {
    if q == [] {
      assert q + [c] == [c] && [c][1..] == [];
    } else {
      PackageSnoc(q[1..], c, package);
      assert (q + [c])[1..] == q[1..] + [c];
    }
  }

  lemma {:induction false} NotOfPackage(q: seq<Candidate>, package: nat)
    ensures OfPackage(q, package) == [] <==> forall c :: c in q ==> c.package != package
  {
    if q != [] { NotOfPackage(q[1..], package); }
  }

  /** The map from packages to their active releases. */
  ghost predicate Tracks(activeByPackage: map<nat, seq<Candidate>>, active: seq<Candidate>) {
    forall k :: OfPackage(active, k) == if k in activeByPackage then activeByPackage[k] else []
  }

  lemma TrackFlagged(activeByPackage: map<nat, seq<Candidate>>, active: seq<Candidate>, c: Candidate)
    requires Tracks(activeByPackage, active)
    ensures var before := if c.package in activeByPackage then activeByPackage[c.package] else [];
            Tracks(activeByPackage[c.package := before + [c]], active + [c])
  {
    forall k ensures OfPackage(active + [c], k) == OfPackage(active, k) + (if c.package == k then [c] else []) {
      PackageSnoc(active, c, k);
    }
    assert [] + [c] == [c];
  }

  lemma TrackClean(activeByPackage: map<nat, seq<Candidate>>, active: seq<Candidate>, c: Candidate)
    requires Tracks(activeByPackage, active)
    ensures c.package in activeByPackage ==> Tracks(activeByPackage[c.package := []], OfOthers(active, c.package))
    ensures OfPackage(active, c.package) == [] ==> Tracks(activeByPackage, OfOthers(active, c.package))
  {
    forall k ensures OfPackage(OfOthers(active, c.package), k) == if k == c.package then [] else OfPackage(active, k) {
      PackageOfOthers(active, k, c.package);
    }
  }

  /** Everything after the first `n` releases in order of time. */
  ghost predicate Scanned(q: seq<Candidate>, activeByPackage: map<nat, seq<Candidate>>, cleaned: seq<Cleaned>) {
    Tracks(activeByPackage, ActiveOf(q)) && multiset(cleaned) == multiset(CleanedOf(q))
  }

  method CleanPackage(active: seq<Candidate>, clean: Candidate, cleaned0: seq<Cleaned>) returns (cleaned: seq<Cleaned>)
    ensures cleaned == cleaned0 + AllCleanedBy(active, clean)
  {
    cleaned := cleaned0;
    for n := 0 to |active|
      invariant cleaned + AllCleanedBy(active[n..], clean) == cleaned0 + AllCleanedBy(active, clean)
    {
      assert active[n..][1..] == active[n + 1..];
      cleaned := cleaned + [CleanedBy(active[n], clean)];
    }
    assert active[|active|..] == [];
  }

  method FlattenActive(activeByPackage: map<nat, seq<Candidate>>, ghost all: seq<Candidate>) returns (active: seq<Candidate>)
    requires Tracks(activeByPackage, all)
    ensures multiset(active) == multiset(all)
  {
    active := [];
    var left := activeByPackage.Keys;
    ghost var done: set<nat> := {};
    WithinNone(all);
    while left != {}
      invariant done + left == activeByPackage.Keys && done !! left
      invariant multiset(active) == multiset(Within(all, done))
      decreases left
    {
      hide *;
      var k :| k in left;
      TrackedPackage(activeByPackage, all, k);
      WithinMore(all, done, k);
      active := active + activeByPackage[k];
      left, done := left - {k}, done + {k};
    }
    assert done == activeByPackage.Keys;
    AllTracked(activeByPackage, all);
    WithinAll(all, done);
  }

  lemma TrackedPackage(activeByPackage: map<nat, seq<Candidate>>, all: seq<Candidate>, k: nat)
    requires Tracks(activeByPackage, all) && k in activeByPackage
    ensures OfPackage(all, k) == activeByPackage[k]
  {}

  lemma AllTracked(activeByPackage: map<nat, seq<Candidate>>, all: seq<Candidate>)
    requires Tracks(activeByPackage, all)
    ensures forall c :: c in all ==> c.package in activeByPackage.Keys
  {
    forall c | c in all ensures c.package in activeByPackage.Keys { NotOfPackage(all, c.package); }
  }

  predicate IsHigh(c: Candidate) { c.severity == High }

  predicate IsWarning(c: Candidate) { c.severity == Warning }

  predicate IsSuspicious(c: Candidate) { c.suspicious }

  function Count(q: seq<Candidate>, keep: Candidate -> bool): nat {
    if q == [] then 0 else Count(q[..|q| - 1], keep) + if keep(q[|q| - 1]) then 1 else 0
  }

  ghost function CountsOf(active: seq<Candidate>, cleaned: seq<Cleaned>): Counts {
    Counts(Count(active, IsHigh), Count(active, IsWarning), Count(active, IsSuspicious), |cleaned|)
  }

  method CountFindings(active: seq<Candidate>, cleaned: seq<Cleaned>) returns (counts: Counts)
    ensures counts == CountsOf(active, cleaned)
  {
    var high, warning, suspicious := 0, 0, 0;
    for n := 0 to |active|
      invariant high == Count(active[..n], IsHigh)
      invariant warning == Count(active[..n], IsWarning)
      invariant suspicious == Count(active[..n], IsSuspicious)
    {
      assert active[..n + 1][..n] == active[..n];
      match active[n].severity {
        case High => high := high + 1;
        case Warning => warning := warning + 1;
        case Lesser =>
      }
      if active[n].suspicious { suspicious := suspicious + 1; }
    }
    assert active[..|active|] == active;
    counts := Counts(high, warning, suspicious, |cleaned|);
  }

  /** The findings of the releases in order of time, each list in its own order. */
  ghost predicate IsPartition(candidates: seq<Candidate>, active: seq<Candidate>, cleaned: seq<Cleaned>, counts: Counts) {
    var q := Sort(ByTime, candidates);
    && multiset(active) == multiset(ActiveOf(q)) && SortedBy(ActiveOrder, active)
    && multiset(cleaned) == multiset(CleanedOf(q)) && SortedBy(CleanedOrder, cleaned)
    && counts == CountsOf(active, cleaned)
  }

  lemma ScanStart()
    ensures Scanned([], map[], [])
  {}

  lemma ScanFlagged(q: seq<Candidate>, activeByPackage: map<nat, seq<Candidate>>, cleaned: seq<Cleaned>, c: Candidate)
    requires Scanned(q, activeByPackage, cleaned) && c.flagged
    ensures var before := if c.package in activeByPackage then activeByPackage[c.package] else [];
            Scanned(q + [c], activeByPackage[c.package := before + [c]], cleaned)
  {
    hide ActiveOf, CleanedOf, Tracks;
    ActiveSnoc(q, c);
    CleanedSnoc(q, c);
    TrackFlagged(activeByPackage, ActiveOf(q), c);
  }

  lemma ScanClean(q: seq<Candidate>, activeByPackage: map<nat, seq<Candidate>>, cleaned: seq<Cleaned>, c: Candidate)
    requires Scanned(q, activeByPackage, cleaned) && !c.flagged
    ensures c.package in activeByPackage ==>
      Scanned(q + [c], activeByPackage[c.package := []], cleaned + AllCleanedBy(activeByPackage[c.package], c))
    ensures (c.package !in activeByPackage || activeByPackage[c.package] == []) ==> Scanned(q + [c], activeByPackage, cleaned)
  {
    hide ActiveOf, CleanedOf;
    ActiveSnoc(q, c);
    CleanedSnoc(q, c);
    TrackClean(activeByPackage, ActiveOf(q), c);
    assert OfPackage(ActiveOf(q), c.package) == if c.package in activeByPackage then activeByPackage[c.package] else [];
    hide Tracks, OfOthers, OfPackage;
    assert AllCleanedBy([], c) == [];
  }

  method PartitionActiveAndCleanedFindings(candidates: seq<Candidate>)
    returns (active: seq<Candidate>, cleaned: seq<Cleaned>, counts: Counts)
    ensures IsPartition(candidates, active, cleaned, counts)
  {
    OrdersAreTotal();
    hide Sort, SortedBy, TotalOrder, Scanned, ActiveOf, CleanedOf, CountsOf;
    var q := Sort(ByTime, candidates);
    var activeByPackage: map<nat, seq<Candidate>> := map[];
    cleaned := [];
    ScanStart();
    assert q[..0] == [];
    for n := 0 to |q|
      invariant Scanned(q[..n], activeByPackage, cleaned)
    {
      var c := q[n];
      assert q[..n + 1] == q[..n] + [c];
      if c.flagged {
        ScanFlagged(q[..n], activeByPackage, cleaned, c);
        activeByPackage := activeByPackage[c.package := (if c.package in activeByPackage then activeByPackage[c.package] else []) + [c]];
        continue;
      }
      ScanClean(q[..n], activeByPackage, cleaned, c);
      if c.package !in activeByPackage { continue; }
      if activeByPackage[c.package] == [] { continue; }
      cleaned := CleanPackage(activeByPackage[c.package], c, cleaned);
      activeByPackage := activeByPackage[c.package := []];
    }
    assert q[..|q|] == q;
    ScannedParts(q, activeByPackage, cleaned);
    active := FlattenActive(activeByPackage, ActiveOf(q));
    SortFacts(ActiveOrder, active);
    SortFacts(CleanedOrder, cleaned);
    active := Sort(ActiveOrder, active);
    cleaned := Sort(CleanedOrder, cleaned);
    counts := CountFindings(active, cleaned);
  }

  lemma ScannedParts(q: seq<Candidate>, activeByPackage: map<nat, seq<Candidate>>, cleaned: seq<Cleaned>)
    requires Scanned(q, activeByPackage, cleaned)
    ensures Tracks(activeByPackage, ActiveOf(q)) && multiset(cleaned) == multiset(CleanedOf(q))
  {}
}
