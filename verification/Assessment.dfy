/** The verdict on a release, from its content matches and the other signals about it. */
module Assessment {
  import opened ContentSummary

  datatype Severity = Informational | Warning | High

  datatype Verdict = Clean | RiskyInstall | Invasive | SuspiciousUnknown | Malware

  /** How many files a release added, removed and changed against its baseline. */
  datatype Diff = NoDiff | Diff(added: nat, removed: nat, changed: nat)

  datatype Signals = Signals(
    repoMismatch: bool, prerelease: bool, installExecution: bool, installLongstanding: bool, installBenign: bool, hookChanged: bool,
    impact: bool, reverseDependents: bool, removedOrYanked: bool, metadata: bool, burst: bool, diff: Diff, manifestOnly: bool)

  datatype Outcome = Outcome(severity: Severity, verdict: Verdict, suspicious: bool)

  predicate RiskyInstallation(s: Signals) { s.installExecution && !s.installBenign && (!s.installLongstanding || s.hookChanged) }

  predicate ContentChanged(s: Signals) { s.diff.Diff? && s.diff.added + s.diff.removed + s.diff.changed > 0 }

  predicate ContentLarge(s: Signals) {
    s.diff.Diff? && (s.diff.added + s.diff.removed + s.diff.changed >= 10 || s.diff.changed >= 5)
  }

  predicate Downstream(s: Signals) { s.impact || s.reverseDependents }

  /** The cascade: the first signal that applies decides. */
  function Assess(s: Signals, c: Summary): Outcome {
    if c.confident then Outcome(High, Malware, true)
    else if c.malicious then Outcome(Warning, SuspiciousUnknown, true)
    else if c.risky || RiskyInstallation(s) then Outcome(Warning, RiskyInstall, true)
    else if c.invasive then Outcome(Warning, Invasive, true)
    else if s.metadata then Outcome(Warning, SuspiciousUnknown, true)
    else if s.burst then Outcome(Warning, SuspiciousUnknown, true)
    else if s.removedOrYanked && ContentChanged(s) && Downstream(s) then Outcome(Warning, SuspiciousUnknown, true)
    else if s.repoMismatch && !s.prerelease && ContentChanged(s) && !s.manifestOnly then Outcome(Informational, Clean, false)
    else if ContentLarge(s) && Downstream(s) then Outcome(Warning, SuspiciousUnknown, true)
    else Outcome(Informational, Clean, false)
  }

  function Level(s: Severity): nat { match s case Informational => 0 case Warning => 1 case High => 2 }

  /** A release assessed from its matches. */
  ghost function AssessRelease(p: Profiles, s: Signals, risk: Risk): Outcome { Assess(s, SummaryOf(p, risk)) }

  /** More content matches, or an indicator of compromise, never lower the severity. */
  lemma MoreEvidenceNeverLowers(p: Profiles, s: Signals, few: Risk, many: Risk)
    requires multiset(few.matches) <= multiset(many.matches) && (few.hasIocs ==> many.hasIocs)
    ensures Level(AssessRelease(p, s, few).severity) <= Level(AssessRelease(p, s, many).severity)
  {
    hide SummaryOf;
    SummaryGrows(p, few, many);
    ConfidentIsMalicious(p, few);
    ConfidentIsMalicious(p, many);
  }

  /** The order in which rules matched changes neither the verdict nor what is reported. */
  lemma VerdictIgnoresOrder(p: Profiles, s: Signals, risk: Risk, other: Risk)
    requires multiset(risk.matches) == multiset(other.matches) && risk.hasIocs == other.hasIocs
    ensures AssessRelease(p, s, risk) == AssessRelease(p, s, other)
    ensures SummaryOf(p, risk).rules == SummaryOf(p, other).rules && SummaryOf(p, risk).tags == SummaryOf(p, other).tags
  {
    ContentSummary.OrderDoesNotMatter(p, risk, other);
  }

  /** The strongest verdict is exactly confident malware; a release is suspicious exactly when
      its severity is more than informational, and then its verdict is not clean. */
  lemma OutcomeIsConsistent(s: Signals, c: Summary)
    ensures var o := Assess(s, c);
            && (o.severity == High <==> o.verdict == Malware) && (o.severity == High <==> c.confident)
            && (o.suspicious <==> o.severity != Informational) && (o.suspicious <==> o.verdict != Clean)
  {}

  /** Something runs at installation that is not known to be benign, and it is new or its
      hook has changed. */
  ghost predicate InstallsRiskily(s: Signals) { s.installExecution && !s.installBenign && (s.installLongstanding ==> s.hookChanged) }

  /** When a release is suspicious: any content or installation behaviour, risky metadata or a
      burst of versions is enough. A change needs downstream impact, and is enough when the
      release was removed or yanked, or when ten files are touched or five changed and no
      repository mismatch of a stable release stands before it. */
  lemma SuspiciousIff(s: Signals, c: Summary)
    ensures var files := if s.diff.Diff? then s.diff.added + s.diff.removed + s.diff.changed else 0;
      Assess(s, c).suspicious <==>
        || c.confident || c.malicious || c.risky || c.invasive || InstallsRiskily(s) || s.metadata || s.burst
        || ((s.impact || s.reverseDependents) && s.removedOrYanked && files > 0)
        || ((s.impact || s.reverseDependents) && (files >= 10 || (s.diff.Diff? && s.diff.changed >= 5)) && (s.repoMismatch ==> s.prerelease || s.manifestOnly))
  {}

  /** Which verdict: confident malware first, then malicious content, then a risky
      installation, then invasive tooling; whatever else is suspicious is unexplained. */
  lemma VerdictIff(s: Signals, c: Summary)
    ensures var o := Assess(s, c);
      && (o.verdict == Malware <==> c.confident)
      && (o.verdict == RiskyInstall <==> !c.confident && !c.malicious && (c.risky || InstallsRiskily(s)))
      && (o.verdict == Invasive <==> !c.confident && !c.malicious && !c.risky && !InstallsRiskily(s) && c.invasive)
      && (o.verdict == SuspiciousUnknown <==>
            !c.confident && (c.malicious || (!c.risky && !InstallsRiskily(s) && !c.invasive && o.suspicious)))
      && (o.severity == Warning <==> o.suspicious && !c.confident)
  {}

  /** Whether something stronger than a large change has already decided. */
  predicate DecidedEarlier(s: Signals, c: Summary) {
    || c.confident || c.malicious || c.risky || c.invasive || RiskyInstallation(s) || s.metadata || s.burst
    || (s.removedOrYanked && ContentChanged(s) && Downstream(s))
  }

  /** A repository mismatch is not such evidence: it lowers the severity of a stable release
      exactly when a large change with downstream impact was all that raised it, and it never
      raises any. */
  lemma MismatchLowersIff(s: Signals, c: Summary)
    requires !s.repoMismatch
    ensures var mismatch := s.(repoMismatch := true);
            && Level(Assess(mismatch, c).severity) <= Level(Assess(s, c).severity)
            && (Assess(mismatch, c).severity != Assess(s, c).severity <==>
                  !DecidedEarlier(s, c) && !s.prerelease && !s.manifestOnly && ContentLarge(s) && Downstream(s))
  {
    if ContentLarge(s) { assert ContentChanged(s); }
  }
}
