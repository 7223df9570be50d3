/** What the split into active and cleaned findings means for the releases themselves. */
module FindingsProperties {
  import opened Sequences
  import opened Sorting
  import opened Findings

  // ----- every flagged release ends up in one list

  function Flagged(q: seq<Candidate>): seq<Candidate> {
    if q == [] then [] else (if q[0].flagged then [q[0]] else []) + Flagged(q[1..])
  }

  function FindingsOf(q: seq<Cleaned>): seq<Candidate> { if q == [] then [] else [q[0].finding] + FindingsOf(q[1..]) }

  lemma {:induction false} FlaggedCount(q: seq<Candidate>, c: Candidate)
    ensures multiset(Flagged(q))[c] == if c.flagged then multiset(q)[c] else 0
  {
    if q != [] {
      FlaggedCount(q[1..], c);
      assert q == [q[0]] + q[1..];
    }
  }

  lemma FindingsAppend(p: seq<Cleaned>, q: seq<Cleaned>)
    requires |p| <= 1
    ensures FindingsOf(p + q) == FindingsOf(p) + FindingsOf(q)
  {
    if p == [] {
      assert p + q == q;
    } else {
      assert (p + q)[1..] == q && p[1..] == [];
    }
  }

  lemma {:induction false} FlaggedSplits(q: seq<Candidate>)
    ensures multiset(Flagged(q)) == multiset(ActiveOf(q)) + multiset(FindingsOf(CleanedOf(q)))
  {
    if q != [] {
      var x, rest := q[0], q[1..];
      FlaggedSplits(rest);
      FindingsAppend(CleanedHead(x, rest), CleanedOf(rest));
      HeadSplits(x, rest);
      hide ActiveHead, CleanedHead;
    }
  }

  lemma HeadSplits(x: Candidate, rest: seq<Candidate>)
    ensures multiset(ActiveHead(x, rest)) + multiset(FindingsOf(CleanedHead(x, rest))) == multiset(if x.flagged then [x] else [])
  {
    assert forall r: Cleaned :: [r][1..] == [];
  }

  lemma FindingsCons(x: Cleaned, rest: seq<Cleaned>)
    ensures FindingsOf([x] + rest) == [x.finding] + FindingsOf(rest)
  {
    assert ([x] + rest)[1..] == rest;
  }

  lemma {:induction false} FindingsWithout(q: seq<Cleaned>, i: nat)
    requires i < |q|
    ensures multiset(FindingsOf(q)) == multiset(FindingsOf(q[..i] + q[i + 1..])) + multiset{q[i].finding}
  {
    hide FindingsOf;
    var x, rest := q[0], q[1..];
    assert q == [x] + rest;
    FindingsCons(x, rest);
    if i == 0 {
      assert q[..0] + q[1..] == rest;
    } else {
      FindingsWithout(rest, i - 1);
      assert q[..i] + q[i + 1..] == [x] + (rest[..i - 1] + rest[i..]);
      FindingsCons(x, rest[..i - 1] + rest[i..]);
    }
  }

  lemma {:induction false} FindingsOfSame(p: seq<Cleaned>, q: seq<Cleaned>)
    requires multiset(p) == multiset(q)
    ensures multiset(FindingsOf(p)) == multiset(FindingsOf(q))
  {
    SameMembers(p, q);
    if p == [] {
      assert q == [];
    } else {
      assert p[0] in q;
      var i :| 0 <= i < |q| && q[i] == p[0];
      FindingsWithout(q, i);
      assert FindingsOf(p) == [p[0].finding] + FindingsOf(p[1..]);
      hide FindingsOf;
      TakeHead(p);
      Without(q, i);
      FindingsOfSame(p[1..], q[..i] + q[i + 1..]);
    }
  }

  /** Each flagged release is reported exactly once, as active or as cleaned. */
  lemma FlaggedArePartitioned(candidates: seq<Candidate>, active: seq<Candidate>, cleaned: seq<Cleaned>, counts: Counts)
    requires IsPartition(candidates, active, cleaned, counts)
    ensures multiset(Flagged(candidates)) == multiset(active) + multiset(FindingsOf(cleaned))
  {
    OrdersAreTotal();
    SortFacts(ByTime, candidates);
    var q := Sort(ByTime, candidates);
    FlaggedSplits(q);
    FindingsOfSame(cleaned, CleanedOf(q));
    forall c ensures multiset(Flagged(candidates))[c] == multiset(Flagged(q))[c] {
      FlaggedCount(candidates, c);
      FlaggedCount(q, c);
    }
  }

  // ----- which list, with unique event ids

  ghost predicate UniqueIds(q: seq<Candidate>) { forall i, j :: 0 <= i < j < |q| ==> q[i].eventId != q[j].eventId }

  ghost predicate CleansAfter(q: seq<Candidate>, c: Candidate, d: Candidate) {
    d in q && Cleans(d, c.package) && ByTime(c, d)
  }

  ghost predicate FirstAfter(q: seq<Candidate>, c: Candidate, d: Candidate) {
    CleansAfter(q, c, d) && forall e :: CleansAfter(q, c, e) ==> ByTime(d, e)
  }

  lemma {:induction false} FirstCleanIs(q: seq<Candidate>, package: nat)
    requires SortedBy(ByTime, q)
    ensures FirstClean(q, package) == [] ==> forall d :: d in q ==> !Cleans(d, package)
    ensures FirstClean(q, package) != [] ==>
      var d := FirstClean(q, package)[0]; d in q && Cleans(d, package) && forall e :: e in q && Cleans(e, package) ==> ByTime(d, e)
  {
    if q != [] {
      assert q == [q[0]] + q[1..];
      if Cleans(q[0], package) {
        OrdersAreTotal();
        forall e | e in q ensures ByTime(q[0], e) { HeadIsLeast(ByTime, q, e); }
      } else {
        FirstCleanIs(q[1..], package);
      }
    }
  }

  lemma HeadIsFirst(q: seq<Candidate>, c: Candidate)
    requires q != [] && SortedBy(ByTime, q) && UniqueIds(q) && c in q[1..]
    ensures ByTime(q[0], c) && !ByTime(c, q[0]) && c != q[0]
  {
    var i :| 0 <= i < |q[1..]| && q[1..][i] == c;
    assert q[i + 1] == c;
  }

  lemma {:induction false} ActiveMember(q: seq<Candidate>, c: Candidate)
    requires SortedBy(ByTime, q) && UniqueIds(q)
    ensures c in ActiveOf(q) <==> c in q && c.flagged && forall d :: !CleansAfter(q, c, d)
  {
    if q != [] {
      var x, rest := q[0], q[1..];
      assert q == [x] + rest;
      ActiveMember(rest, c);
      FirstCleanIs(rest, c.package);
      if c in rest {
        HeadIsFirst(q, c);
        assert forall d :: CleansAfter(q, c, d) <==> CleansAfter(rest, c, d);
      } else if c == x {
        forall d | d in rest ensures ByTime(x, d) { HeadIsFirst(q, d); }
        var clean := FirstClean(rest, c.package);
        if clean != [] { assert CleansAfter(q, c, clean[0]); }
      }
    }
  }

  ghost predicate CleanedOn(q: seq<Candidate>, r: Cleaned, d: Candidate) {
    r.finding in q && r.finding.flagged && FirstAfter(q, r.finding, d) && r == CleanedBy(r.finding, d)
  }

  lemma SameId(q: seq<Candidate>, d: Candidate, e: Candidate)
    requires UniqueIds(q) && d in q && e in q && d.eventId == e.eventId
    ensures d == e
  {
    var i :| 0 <= i < |q| && q[i] == d;
    var j :| 0 <= j < |q| && q[j] == e;
  }

  lemma LaterInRest(q: seq<Candidate>, c: Candidate, d: Candidate)
    requires q != [] && SortedBy(ByTime, q) && UniqueIds(q) && c in q && c.flagged
    ensures c in q[1..] ==> (FirstAfter(q, c, d) <==> FirstAfter(q[1..], c, d))
    ensures c == q[0] && FirstAfter(q, c, d) ==> FirstClean(q[1..], c.package) == [d]
    ensures c == q[0] && FirstClean(q[1..], c.package) == [d] ==> FirstAfter(q, c, d)
  {
    var x, rest := q[0], q[1..];
    assert q == [x] + rest;
    FirstCleanIs(rest, c.package);
    forall e | e in rest ensures ByTime(x, e) && !ByTime(e, x) { HeadIsFirst(q, e); }
    if c in rest {
      assert forall e :: CleansAfter(q, c, e) <==> CleansAfter(rest, c, e);
    } else {
      var first := FirstClean(rest, c.package);
      assert forall e :: CleansAfter(q, c, e) <==> e in rest && Cleans(e, c.package);
      if FirstAfter(q, c, d) && first != [] {
        assert ByTime(first[0], d) && ByTime(d, first[0]);
        SameId(q, d, first[0]);
      }
    }
  }

  lemma CleanedHeadMember(x: Candidate, rest: seq<Candidate>, r: Cleaned)
    ensures r in CleanedHead(x, rest) <==>
      r.finding == x && x.flagged && FirstClean(rest, x.package) != [] && r == CleanedBy(x, FirstClean(rest, x.package)[0])
  {}

  lemma {:induction false} CleanedMember(q: seq<Candidate>, r: Cleaned)
    requires SortedBy(ByTime, q) && UniqueIds(q)
    ensures r in CleanedOf(q) <==> exists d :: CleanedOn(q, r, d)
  {
    if q != [] {
      var x, rest, c := q[0], q[1..], r.finding;
      assert q == [x] + rest;
      CleanedMember(rest, r);
      CleanedHeadMember(x, rest, r);
      assert r in CleanedOf(q) <==> r in CleanedHead(x, rest) || r in CleanedOf(rest);
      hide CleanedOf, CleanedHead, UniqueIds, SortedBy, CleanedBy, FirstAfter, FirstClean;
      if c in rest && c.flagged { HeadIsFirst(q, c); }
      forall d | c in q && c.flagged
        ensures c in rest ==> (CleanedOn(q, r, d) <==> CleanedOn(rest, r, d))
        ensures c == x ==> (CleanedOn(q, r, d) <==> FirstClean(rest, c.package) == [d] && r == CleanedBy(c, d))
      {
        LaterInRest(q, c, d);
      }
      if c == x && c.flagged && FirstClean(rest, c.package) != [] {
        var d := FirstClean(rest, c.package)[0];
        assert FirstClean(rest, c.package) == [d];
      }
    }
  }

  lemma SortedUniqueIds(candidates: seq<Candidate>)
    requires UniqueIds(candidates)
    ensures var q := Sort(ByTime, candidates); SortedBy(ByTime, q) && UniqueIds(q) && multiset(q) == multiset(candidates)
  {
    OrdersAreTotal();
    SortFacts(ByTime, candidates);
    var q := Sort(ByTime, candidates);
    SameMembers(q, candidates);
    forall i, j | 0 <= i < j < |q| ensures q[i].eventId != q[j].eventId {
      if q[i].eventId == q[j].eventId {
        SameId(candidates, q[i], q[j]);
        TwiceInMultiset(q, i, j);
        OnceInMultiset(candidates, q[i]);
      }
    }
  }

  lemma {:induction false} OnceInMultiset(q: seq<Candidate>, c: Candidate)
    requires UniqueIds(q)
    ensures multiset(q)[c] <= 1
  {
    if q != [] {
      OnceInMultiset(q[1..], c);
      assert q == [q[0]] + q[1..];
      forall i | 0 <= i < |q[1..]| ensures q[1..][i] != q[0] {
        assert q[1..][i] == q[i + 1];
      }
    }
  }

  /** Observed earlier, or at the same time with a smaller event id. */
  ghost predicate Before(c: Candidate, d: Candidate) {
    c.observedAt < d.observedAt || (c.observedAt == d.observedAt && c.eventId < d.eventId)
  }

  /** `d` is a clean release of the same package that comes after `c`. */
  ghost predicate CleanedLater(q: seq<Candidate>, c: Candidate, d: Candidate) {
    d in q && !d.flagged && d.package == c.package && Before(c, d)
  }

  ghost predicate Earliest(q: seq<Candidate>, c: Candidate, d: Candidate) {
    CleanedLater(q, c, d) && forall e :: CleanedLater(q, c, e) && e != d ==> Before(d, e)
  }

  /** `r` reports a flagged release with the earliest clean one behind it. */
  ghost predicate CleanedFrom(q: seq<Candidate>, r: Cleaned, d: Candidate) {
    && r.finding in q && r.finding.flagged && Earliest(q, r.finding, d)
    && r.cleanedAt == d.observedAt && r.cleanedBy == d.eventId && r.cleanedByVersion == d.version
  }

  lemma InOrder(q: seq<Candidate>, c: Candidate, d: Candidate)
    requires UniqueIds(q) && c in q && d in q
    ensures ByTime(c, d) <==> c == d || Before(c, d)
  {
    if c.eventId == d.eventId { SameId(q, c, d); }
  }

  lemma LaterIs(q: seq<Candidate>, c: Candidate, d: Candidate)
    requires UniqueIds(q) && c in q && c.flagged
    ensures CleanedLater(q, c, d) <==> CleansAfter(q, c, d)
  {
    if d in q { InOrder(q, c, d); }
  }

  lemma EarliestIs(q: seq<Candidate>, c: Candidate, d: Candidate)
    requires UniqueIds(q) && c in q && c.flagged
    ensures Earliest(q, c, d) <==> FirstAfter(q, c, d)
  {
    forall e ensures CleanedLater(q, c, e) <==> CleansAfter(q, c, e) { LaterIs(q, c, e); }
    forall e | d in q && e in q ensures ByTime(d, e) <==> d == e || Before(d, e) { InOrder(q, d, e); }
    hide UniqueIds, Before, ByTime;
  }

  /** With unique event ids, a release is active exactly when it is flagged and no clean
      release of its package comes later, and any other flagged release is reported as cleaned
      by exactly the earliest of those. */
  lemma ActiveAndCleanedIff(candidates: seq<Candidate>, active: seq<Candidate>, cleaned: seq<Cleaned>, counts: Counts, c: Candidate, r: Cleaned)
    requires UniqueIds(candidates) && IsPartition(candidates, active, cleaned, counts)
    ensures c in active <==> c in candidates && c.flagged && forall d :: !CleanedLater(candidates, c, d)
    ensures r in cleaned <==> exists d :: CleanedFrom(candidates, r, d)
  {
    hide *;
    MembersIff(candidates, active, cleaned, counts, c, r);
    if c in candidates && c.flagged {
      forall d ensures CleanedLater(candidates, c, d) <==> CleansAfter(candidates, c, d) { LaterIs(candidates, c, d); }
    }
    forall d ensures CleanedFrom(candidates, r, d) <==> CleanedOn(candidates, r, d) { CleanedFromIs(candidates, r, d); }
  }

  lemma CleanedFromIs(q: seq<Candidate>, r: Cleaned, d: Candidate)
    requires UniqueIds(q)
    ensures CleanedFrom(q, r, d) <==> CleanedOn(q, r, d)
  {
    hide UniqueIds, Earliest, FirstAfter;
    if r.finding in q && r.finding.flagged { EarliestIs(q, r.finding, d); }
  }

  lemma MembersIff(candidates: seq<Candidate>, active: seq<Candidate>, cleaned: seq<Cleaned>, counts: Counts, c: Candidate, r: Cleaned)
    requires UniqueIds(candidates) && IsPartition(candidates, active, cleaned, counts)
    ensures c in active <==> c in candidates && c.flagged && forall d :: !CleansAfter(candidates, c, d)
    ensures r in cleaned <==> exists d :: CleanedOn(candidates, r, d)
  {
    var q := Sort(ByTime, candidates);
    SortedUniqueIds(candidates);
    SameMembers(q, candidates);
    SameMembers(active, ActiveOf(q));
    SameMembers(cleaned, CleanedOf(q));
    ActiveMember(q, c);
    CleanedMember(q, r);
    forall d, e ensures CleansAfter(candidates, d, e) <==> CleansAfter(q, d, e) {}
    hide SortedBy, UniqueIds, Sort, ActiveOf, CleanedOf, CleansAfter;
    forall d ensures CleanedOn(candidates, r, d) <==> CleanedOn(q, r, d) {}
  }

  // ----- how the lists are ordered

  /** High findings come first, then warnings, then the rest. */
  ghost predicate NoLess(x: Severity, y: Severity) { (y == High ==> x == High) && (y == Warning ==> x != Lesser) }

  /** Active findings are listed by severity and then latest first; cleaned ones by when they
      were cleaned, latest first, then by severity and then by event id from the largest on. */
  lemma ListsAreOrdered(candidates: seq<Candidate>, active: seq<Candidate>, cleaned: seq<Cleaned>, counts: Counts, i: nat, j: nat)
    requires IsPartition(candidates, active, cleaned, counts) && i < j
    ensures j < |active| ==> NoLess(active[i].severity, active[j].severity)
    ensures j < |active| && active[i].severity == active[j].severity ==>
      active[j].observedAt < active[i].observedAt || (active[j].observedAt == active[i].observedAt && active[j].eventId <= active[i].eventId)
    ensures j < |cleaned| ==> cleaned[j].cleanedAt <= cleaned[i].cleanedAt
    ensures j < |cleaned| && cleaned[i].cleanedAt == cleaned[j].cleanedAt ==>
      NoLess(cleaned[i].finding.severity, cleaned[j].finding.severity)
    ensures j < |cleaned| && cleaned[i].cleanedAt == cleaned[j].cleanedAt && cleaned[i].finding.severity == cleaned[j].finding.severity ==>
      cleaned[j].finding.eventId <= cleaned[i].finding.eventId
  {
    if j < |active| { assert ActiveOrder(active[i], active[j]); }
    if j < |cleaned| { assert CleanedOrder(cleaned[i], cleaned[j]); }
  }

  /** With unique event ids the report does not depend on the order of the input. */
  lemma OrderDoesNotMatter(
    p: seq<Candidate>, active: seq<Candidate>, cleaned: seq<Cleaned>, counts: Counts,
    q: seq<Candidate>, active': seq<Candidate>, cleaned': seq<Cleaned>, counts': Counts)
    requires UniqueIds(p) && UniqueIds(q) && multiset(p) == multiset(q)
    requires IsPartition(p, active, cleaned, counts) && IsPartition(q, active', cleaned', counts')
    ensures active == active' && cleaned == cleaned' && counts == counts'
  {
    OrdersAreTotal();
    SortedUniqueIds(p);
    SortedUniqueIds(q);
    var s := Sort(ByTime, p);
    StrictByTime(s);
    SortedUnique(ByTime, s, Sort(ByTime, q));
    StrictActive(s, active);
    SortedUnique(ActiveOrder, active, active');
    StrictCleaned(s, cleaned);
    SortedUnique(CleanedOrder, cleaned, cleaned');
  }

  lemma StrictByTime(q: seq<Candidate>)
    requires UniqueIds(q)
    ensures Strict(ByTime, q)
  {
    forall x, y | x in q && y in q && ByTime(x, y) && ByTime(y, x) ensures x == y { SameId(q, x, y); }
  }

  lemma StrictActive(q: seq<Candidate>, active: seq<Candidate>)
    requires SortedBy(ByTime, q) && UniqueIds(q) && multiset(active) == multiset(ActiveOf(q))
    ensures Strict(ActiveOrder, active)
  {
    SameMembers(active, ActiveOf(q));
    forall x, y | x in active && y in active && ActiveOrder(x, y) && ActiveOrder(y, x) ensures x == y {
      ActiveMember(q, x);
      ActiveMember(q, y);
      SameId(q, x, y);
    }
  }

  lemma StrictCleaned(q: seq<Candidate>, cleaned: seq<Cleaned>)
    requires SortedBy(ByTime, q) && UniqueIds(q) && multiset(cleaned) == multiset(CleanedOf(q))
    ensures Strict(CleanedOrder, cleaned)
  {
    SameMembers(cleaned, CleanedOf(q));
    forall x, y | x in cleaned && y in cleaned && CleanedOrder(x, y) && CleanedOrder(y, x) ensures x == y {
      CleanedMember(q, x);
      CleanedMember(q, y);
      var d :| CleanedOn(q, x, d);
      var e :| CleanedOn(q, y, e);
      SameId(q, x.finding, y.finding);
      assert ByTime(d, e) && ByTime(e, d);
      SameId(q, d, e);
    }
  }
}
