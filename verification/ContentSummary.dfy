/** Summing up the content rules a release matched. */
module ContentSummary {
  import opened Wrappers
  import opened Sorting
  import Ball

  datatype Class = MaliciousBehavior | RiskyInstaller | InvasiveTooling | ContextOnly

  /** What the rule tables say about a rule; the tables themselves are a parameter. */
  datatype Profile = Profile(matchClass: Class, behaviorTags: seq<string>, strongChain: bool)

  type Profiles = (string, seq<string>) -> Profile

  datatype Match = Match(rule: string, ruleTags: seq<string>, matchClass: Option<Class>, behaviorTags: seq<string>, evidenceKind: Option<string>)

  datatype Risk = Risk(matches: seq<Match>, hasIocs: bool)

  datatype Summary = Summary(rules: set<string>, tags: set<string>, malicious: bool, risky: bool, invasive: bool, confident: bool)

  function Group(tag: string): string {
    if tag in {"remote_fetch", "dynamic_execution", "payload_drop", "shell_execution"} then "execution"
    else if tag in {"callback", "exfiltration", "cloud_exfiltration"} then "exfiltration"
    else if tag == "command_and_control" then "command_and_control"
    else if tag in {"reconnaissance", "ci_targeting"} then "reconnaissance"
    else if tag in {"credential_or_wallet_theft", "browser_targeting", "crypto_targeting"} then "theft"
    else if tag == "persistence_or_propagation" then "persistence"
    else if tag == "target_mutation" then "target_mutation"
    else if tag == "install_or_build_execution" then "install_or_build_execution"
    else if tag in {"evasion", "obfuscation"} then "stealth"
    else "misc"
  }

  /** A match's own class and tags win over its rule's. */
  function ClassOf(p: Profiles, m: Match): Class { if m.matchClass.Some? then m.matchClass.value else p(m.rule, m.ruleTags).matchClass }

  function TagList(p: Profiles, m: Match): seq<string> {
    if m.behaviorTags == [] then p(m.rule, m.ruleTags).behaviorTags else m.behaviorTags
  }

  function TagsOf(p: Profiles, m: Match): set<string> { set t | t in TagList(p, m) }

  predicate IsMalicious(p: Profiles, m: Match) { ClassOf(p, m) == MaliciousBehavior }

  predicate IsConcrete(m: Match) { m.evidenceKind != Some("module_condition") }

  predicate IsStrong(p: Profiles, m: Match) { p(m.rule, m.ruleTags).strongChain }

  // ----- the summary, match by match in no order

  function RulesOf(ms: seq<Match>): set<string> { set m | m in ms :: m.rule }

  function AllTags(p: Profiles, ms: seq<Match>): set<string> { set m, t | m in ms && t in TagsOf(p, m) :: t }

  function MaliciousTags(p: Profiles, ms: seq<Match>): set<string> { set m, t | m in ms && IsMalicious(p, m) && t in TagsOf(p, m) :: t }

  function MaliciousGroups(p: Profiles, ms: seq<Match>): set<string> { set t | t in MaliciousTags(p, ms) :: Group(t) }

  predicate AnyClass(p: Profiles, ms: seq<Match>, c: Class) { exists m :: m in ms && ClassOf(p, m) == c }

  predicate AnyConcrete(p: Profiles, ms: seq<Match>) { exists m :: m in ms && IsMalicious(p, m) && IsConcrete(m) }

  predicate AnyStrong(p: Profiles, ms: seq<Match>) { exists m :: m in ms && IsMalicious(p, m) && IsStrong(p, m) }

  function MaliciousCount(p: Profiles, ms: seq<Match>): nat {
    if ms == [] then 0 else MaliciousCount(p, ms[..|ms| - 1]) + if IsMalicious(p, ms[|ms| - 1]) then 1 else 0
  }

  /** A strong chain that something corroborates or that shows two behaviours, or two
      corroborated malicious matches in two groups of behaviour. */
  predicate Confident(p: Profiles, risk: Risk) {
    var ms := risk.matches;
    var corroborated := AnyConcrete(p, ms) || risk.hasIocs;
    || (AnyStrong(p, ms) && (corroborated || |MaliciousGroups(p, ms)| >= 2 || |MaliciousTags(p, ms)| >= 2))
    || (|MaliciousGroups(p, ms)| >= 2 && corroborated && MaliciousCount(p, ms) >= 2)
  }

  function SummaryOf(p: Profiles, risk: Risk): Summary {
    var ms := risk.matches;
    Summary(RulesOf(ms), AllTags(p, ms), AnyClass(p, ms, MaliciousBehavior), AnyClass(p, ms, RiskyInstaller),
            AnyClass(p, ms, InvasiveTooling), Confident(p, risk))
  }

  // ----- the fold

  /** The loop's variables. */
  datatype Fold = Fold(rules: set<string>, tags: set<string>, malicious: bool, risky: bool, invasive: bool,
                       groups: set<string>, maliciousTags: set<string>, count: nat, strong: nat, concrete: bool)

  ghost predicate Folded(p: Profiles, ms: seq<Match>, f: Fold) {
    && f.rules == RulesOf(ms) && f.tags == AllTags(p, ms)
    && f.malicious == AnyClass(p, ms, MaliciousBehavior) && f.risky == AnyClass(p, ms, RiskyInstaller)
    && f.invasive == AnyClass(p, ms, InvasiveTooling)
    && f.maliciousTags == MaliciousTags(p, ms) && f.groups == MaliciousGroups(p, ms)
    && f.count == MaliciousCount(p, ms) && (f.strong > 0 <==> AnyStrong(p, ms)) && f.concrete == AnyConcrete(p, ms)
  }

  lemma SetsNext(p: Profiles, ms: seq<Match>, m: Match)
    ensures RulesOf(ms + [m]) == RulesOf(ms) + {m.rule}
    ensures AllTags(p, ms + [m]) == AllTags(p, ms) + TagsOf(p, m)
    ensures MaliciousTags(p, ms + [m]) == MaliciousTags(p, ms) + (if IsMalicious(p, m) then TagsOf(p, m) else {})
  {
    hide TagsOf, IsMalicious;
  }

  lemma GroupsNext(p: Profiles, ms: seq<Match>, m: Match)
    ensures MaliciousGroups(p, ms + [m]) == MaliciousGroups(p, ms) + (if IsMalicious(p, m) then set t | t in TagsOf(p, m) :: Group(t) else {})
  {
    SetsNext(p, ms, m);
    hide TagsOf, IsMalicious, MaliciousTags, Group;
  }

  lemma FlagsNext(p: Profiles, ms: seq<Match>, m: Match)
    ensures forall c :: AnyClass(p, ms + [m], c) <==> AnyClass(p, ms, c) || ClassOf(p, m) == c
    ensures AnyConcrete(p, ms + [m]) <==> AnyConcrete(p, ms) || (IsMalicious(p, m) && IsConcrete(m))
    ensures AnyStrong(p, ms + [m]) <==> AnyStrong(p, ms) || (IsMalicious(p, m) && IsStrong(p, m))
    ensures MaliciousCount(p, ms + [m]) == MaliciousCount(p, ms) + (if IsMalicious(p, m) then 1 else 0)
  {
    assert (ms + [m])[..|ms|] == ms;
    assert forall x :: x in ms + [m] <==> x in ms || x == m;
    hide IsConcrete, IsStrong, ClassOf;
  }

  method FoldMatch(p: Profiles, ghost ms: seq<Match>, f: Fold, m: Match) returns (g: Fold)
    requires Folded(p, ms, f)
    ensures Folded(p, ms + [m], g)
  {
    SetsNext(p, ms, m);
    GroupsNext(p, ms, m);
    FlagsNext(p, ms, m);
    hide RulesOf, AllTags, AnyClass, MaliciousTags, MaliciousGroups, MaliciousCount, AnyStrong, AnyConcrete, TagsOf, Group;
    var matchClass, tags := ClassOf(p, m), TagsOf(p, m);
    g := f.(rules := f.rules + {m.rule}, tags := f.tags + tags);
    match matchClass {
      case MaliciousBehavior =>
        g := g.(malicious := true, count := g.count + 1);
        if IsConcrete(m) { g := g.(concrete := true); }
        if IsStrong(p, m) { g := g.(strong := g.strong + 1); }
        g := g.(maliciousTags := g.maliciousTags + tags, groups := g.groups + set t | t in tags :: Group(t));
      case RiskyInstaller => g := g.(risky := true);
      case InvasiveTooling => g := g.(invasive := true);
      case ContextOnly =>
    }
  }

  lemma NothingFolded(p: Profiles)
    ensures Folded(p, [], Fold({}, {}, false, false, false, {}, {}, 0, 0, false))
  {}

  method SummarizeContentMatches(p: Profiles, risk: Risk) returns (s: Summary)
    ensures s == SummaryOf(p, risk)
  {
    var ms := risk.matches;
    var f := Fold({}, {}, false, false, false, {}, {}, 0, 0, false);
    NothingFolded(p);
    assert ms[..0] == [];
    for n := 0 to |ms|
      invariant Folded(p, ms[..n], f)
    {
      assert ms[..n + 1] == ms[..n] + [ms[n]];
      f := FoldMatch(p, ms[..n], f, ms[n]);
    }
    assert ms[..|ms|] == ms;
    hide RulesOf, AllTags, AnyClass, MaliciousTags, MaliciousGroups, MaliciousCount, AnyStrong, AnyConcrete;
    var selfSufficient := f.strong > 0 && (|f.groups| >= 2 || |f.maliciousTags| >= 2);
    var corroborated := f.concrete || risk.hasIocs;
    var confident := (f.strong > 0 && (corroborated || selfSufficient)) || (|f.groups| >= 2 && corroborated && f.count >= 2);
    s := Summary(f.rules, f.tags, f.malicious, f.risky, f.invasive, confident);
  }

  // ----- more matches

  lemma CountNext(p: Profiles, ms: seq<Match>, m: Match)
    ensures MaliciousCount(p, ms + [m]) == MaliciousCount(p, ms) + (if IsMalicious(p, m) then 1 else 0)
  {
    assert (ms + [m])[..|ms|] == ms;
  }

  lemma {:induction false} CountAppend(p: Profiles, a: seq<Match>, b: seq<Match>)
    ensures MaliciousCount(p, a + b) == MaliciousCount(p, a) + MaliciousCount(p, b)
    decreases |b|
  {
    if b == [] {
      assert a + b == a;
    } else {
      var n := |b| - 1;
      CountAppend(p, a, b[..n]);
      assert a + b == (a + b[..n]) + [b[n]] && b == b[..n] + [b[n]];
      CountNext(p, a + b[..n], b[n]);
    }
  }

  lemma CountWithout(p: Profiles, ms: seq<Match>, i: nat)
    requires i < |ms|
    ensures MaliciousCount(p, ms) == MaliciousCount(p, ms[..i] + ms[i + 1..]) + (if IsMalicious(p, ms[i]) then 1 else 0)
  {
    hide MaliciousCount, IsMalicious;
    assert ms == (ms[..i] + [ms[i]]) + ms[i + 1..];
    CountAppend(p, ms[..i] + [ms[i]], ms[i + 1..]);
    CountNext(p, ms[..i], ms[i]);
    CountAppend(p, ms[..i], ms[i + 1..]);
  }

  lemma {:induction false} CountGrows(p: Profiles, few: seq<Match>, many: seq<Match>)
    requires multiset(few) <= multiset(many)
    ensures MaliciousCount(p, few) <= MaliciousCount(p, many)
    decreases |few|
  {
    if few != [] {
      hide IsMalicious;
      var n := |few| - 1;
      assert few[n] in multiset(many);
      var i :| 0 <= i < |many| && many[i] == few[n];
      assert few[..n] + few[n + 1..] == few[..n];
      Without(few, n);
      Without(many, i);
      CountWithout(p, many, i);
      CountGrows(p, few[..n], many[..i] + many[i + 1..]);
    }
  }

  /** With more matches or an indicator of compromise, no flag is lost. */
  ghost predicate AtMost(s: Summary, t: Summary) {
    && s.rules <= t.rules && s.tags <= t.tags
    && (s.malicious ==> t.malicious) && (s.risky ==> t.risky) && (s.invasive ==> t.invasive) && (s.confident ==> t.confident)
  }

  lemma MembersGrow(p: Profiles, few: seq<Match>, many: seq<Match>)
    requires forall m :: m in few ==> m in many
    ensures RulesOf(few) <= RulesOf(many) && AllTags(p, few) <= AllTags(p, many) && MaliciousTags(p, few) <= MaliciousTags(p, many)
    ensures MaliciousGroups(p, few) <= MaliciousGroups(p, many)
    ensures forall c :: AnyClass(p, few, c) ==> AnyClass(p, many, c)
    ensures AnyConcrete(p, few) ==> AnyConcrete(p, many)
    ensures AnyStrong(p, few) ==> AnyStrong(p, many)
  {
    hide TagsOf, IsMalicious, ClassOf, IsConcrete, IsStrong, Group;
  }

  lemma SummaryGrows(p: Profiles, few: Risk, many: Risk)
    requires multiset(few.matches) <= multiset(many.matches) && (few.hasIocs ==> many.hasIocs)
    ensures AtMost(SummaryOf(p, few), SummaryOf(p, many))
  {
    forall m | m in few.matches ensures m in many.matches { assert m in multiset(many.matches); }
    MembersGrow(p, few.matches, many.matches);
    CountGrows(p, few.matches, many.matches);
    Ball.SubsetSize(MaliciousTags(p, few.matches), MaliciousTags(p, many.matches));
    Ball.SubsetSize(MaliciousGroups(p, few.matches), MaliciousGroups(p, many.matches));
    hide RulesOf, AllTags, AnyClass, MaliciousTags, MaliciousGroups, MaliciousCount, AnyStrong, AnyConcrete;
  }

  /** The order of the matches does not matter. */
  lemma OrderDoesNotMatter(p: Profiles, risk: Risk, other: Risk)
    requires multiset(risk.matches) == multiset(other.matches) && risk.hasIocs == other.hasIocs
    ensures SummaryOf(p, risk) == SummaryOf(p, other)
  {
    hide SummaryOf;
    SummaryGrows(p, risk, other);
    SummaryGrows(p, other, risk);
  }

  /** Confidence needs malicious behaviour. */
  lemma ConfidentIsMalicious(p: Profiles, risk: Risk)
    ensures SummaryOf(p, risk).confident ==> SummaryOf(p, risk).malicious
  {
    hide TagsOf, Group, IsStrong, IsConcrete, ClassOf;
    if |MaliciousGroups(p, risk.matches)| >= 2 {
      assert MaliciousGroups(p, risk.matches) != {};
      var t :| t in MaliciousTags(p, risk.matches);
    }
  }

  // ----- what decides, in plain terms

  /** A match counts as of the class it carries itself, or else of its rule's. */
  ghost predicate IsOf(p: Profiles, m: Match, c: Class) {
    m.matchClass == Some(c) || (m.matchClass == None && p(m.rule, m.ruleTags).matchClass == c)
  }

  /** A match shows the tags it carries itself, or, if it carries none, its rule's. */
  ghost predicate Tagged(p: Profiles, m: Match, t: string) {
    t in m.behaviorTags || (m.behaviorTags == [] && t in p(m.rule, m.ruleTags).behaviorTags)
  }

  ghost predicate MaliciousTag(p: Profiles, ms: seq<Match>, t: string) {
    exists m :: m in ms && IsOf(p, m, MaliciousBehavior) && Tagged(p, m, t)
  }

  /** What is reported and which flags are up. */
  lemma SummaryIff(p: Profiles, risk: Risk)
    ensures var s, ms := SummaryOf(p, risk), risk.matches;
      && (forall r :: r in s.rules <==> exists m :: m in ms && m.rule == r)
      && (forall t :: t in s.tags <==> exists m :: m in ms && Tagged(p, m, t))
      && (s.malicious <==> exists m :: m in ms && IsOf(p, m, MaliciousBehavior))
      && (s.risky <==> exists m :: m in ms && IsOf(p, m, RiskyInstaller))
      && (s.invasive <==> exists m :: m in ms && IsOf(p, m, InvasiveTooling))
  {
    forall m, c ensures IsOf(p, m, c) <==> ClassOf(p, m) == c {}
    forall m, t ensures Tagged(p, m, t) <==> t in TagsOf(p, m) {}
    hide IsOf, Tagged, ClassOf, TagsOf, Confident;
  }

  lemma TwoOf<T>(s: set<T>)
    ensures |s| >= 2 <==> exists x, y :: x in s && y in s && x != y
  {
    if |s| >= 2 {
      var x :| x in s;
      assert |s - {x}| == |s| - 1;
      var y :| y in s - {x};
      assert x in s && y in s && x != y;
    }
    if x, y :| x in s && y in s && x != y { Ball.SubsetSize({x, y}, s); }
  }

  lemma {:induction false} CountIsOne(p: Profiles, ms: seq<Match>)
    ensures MaliciousCount(p, ms) >= 1 <==> exists i :: 0 <= i < |ms| && IsMalicious(p, ms[i])
  {
    hide IsMalicious;
    if ms != [] {
      var last := |ms| - 1;
      CountIsOne(p, ms[..last]);
      if IsMalicious(p, ms[last]) {
      } else if i :| 0 <= i < |ms| && IsMalicious(p, ms[i]) {
        assert ms[..last][i] == ms[i];
      }
      if i :| 0 <= i < last && IsMalicious(p, ms[..last][i]) { assert IsMalicious(p, ms[i]); }
    }
  }

  lemma {:induction false} CountIsTwo(p: Profiles, ms: seq<Match>)
    ensures MaliciousCount(p, ms) >= 2 <==> exists i, j :: 0 <= i < j < |ms| && IsMalicious(p, ms[i]) && IsMalicious(p, ms[j])
  {
    hide IsMalicious;
    if ms != [] {
      var last := |ms| - 1;
      var front := ms[..last];
      CountIsTwo(p, front);
      CountIsOne(p, front);
      if i, j :| 0 <= i < j < |ms| && IsMalicious(p, ms[i]) && IsMalicious(p, ms[j]) {
        assert front[i] == ms[i];
        if j < last { assert front[j] == ms[j]; }
      }
      if i :| 0 <= i < last && IsMalicious(p, front[i]) { assert IsMalicious(p, ms[i]); }
      if i, j :| 0 <= i < j < last && IsMalicious(p, front[i]) && IsMalicious(p, front[j]) {
        assert IsMalicious(p, ms[i]) && IsMalicious(p, ms[j]);
      }
    }
  }

  lemma TwoTags(p: Profiles, ms: seq<Match>)
    ensures |MaliciousTags(p, ms)| >= 2 <==> exists t, u :: MaliciousTag(p, ms, t) && MaliciousTag(p, ms, u) && t != u
    ensures |MaliciousGroups(p, ms)| >= 2 <==>
      exists t, u :: MaliciousTag(p, ms, t) && MaliciousTag(p, ms, u) && Group(t) != Group(u)
  {
    var tags, groups := MaliciousTags(p, ms), MaliciousGroups(p, ms);
    forall m ensures IsOf(p, m, MaliciousBehavior) <==> IsMalicious(p, m) {}
    forall m, t ensures Tagged(p, m, t) <==> t in TagsOf(p, m) {}
    hide IsOf, Tagged, IsMalicious, TagsOf, Group;
    assert forall t :: t in tags <==> MaliciousTag(p, ms, t);
    hide MaliciousTag, MaliciousTags;
    TwoOf(tags);
    TwoOf(groups);
    if x, y :| x in groups && y in groups && x != y {
      var t :| t in tags && Group(t) == x;
      var u :| u in tags && Group(u) == y;
      assert MaliciousTag(p, ms, t) && MaliciousTag(p, ms, u) && Group(t) != Group(u);
    }
    if t, u :| MaliciousTag(p, ms, t) && MaliciousTag(p, ms, u) && Group(t) != Group(u) {
      assert Group(t) in groups && Group(u) in groups;
    }
  }

  /** When malware is confident: a malicious match that is a strong chain, with two different
      tags or corroboration, or two malicious matches with tags of two groups and
      corroboration. What corroborates is an indicator of compromise, or malicious evidence
      other than a module condition. */
  lemma ConfidentIff(p: Profiles, risk: Risk)
    ensures var ms := risk.matches;
      var corroborated := risk.hasIocs || exists m :: m in ms && IsOf(p, m, MaliciousBehavior) && m.evidenceKind != Some("module_condition");
      SummaryOf(p, risk).confident <==>
        || ((exists m :: m in ms && IsOf(p, m, MaliciousBehavior) && p(m.rule, m.ruleTags).strongChain)
              && (corroborated || exists t, u :: MaliciousTag(p, ms, t) && MaliciousTag(p, ms, u) && t != u))
        || ((exists i, j :: 0 <= i < j < |ms| && IsOf(p, ms[i], MaliciousBehavior) && IsOf(p, ms[j], MaliciousBehavior))
              && corroborated && exists t, u :: MaliciousTag(p, ms, t) && MaliciousTag(p, ms, u) && Group(t) != Group(u))
  {
    var ms := risk.matches;
    TwoTags(p, ms);
    CountIsTwo(p, ms);
    forall m ensures IsOf(p, m, MaliciousBehavior) <==> IsMalicious(p, m) {}
    GroupsAreTags(p, ms);
    hide IsOf, IsMalicious, MaliciousTag, MaliciousTags, MaliciousGroups, MaliciousCount, Group, RulesOf, AllTags, AnyClass;
    assert AnyStrong(p, ms) <==> exists m :: m in ms && IsOf(p, m, MaliciousBehavior) && p(m.rule, m.ruleTags).strongChain;
    assert AnyConcrete(p, ms) <==> exists m :: m in ms && IsOf(p, m, MaliciousBehavior) && m.evidenceKind != Some("module_condition");
    hide AnyStrong, AnyConcrete, IsConcrete, IsStrong;
  }

  lemma GroupsAreTags(p: Profiles, ms: seq<Match>)
    ensures |MaliciousGroups(p, ms)| >= 2 ==> |MaliciousTags(p, ms)| >= 2
  {
    TwoTags(p, ms);
    hide MaliciousTags, MaliciousGroups, MaliciousTag, Group;
  }
}
