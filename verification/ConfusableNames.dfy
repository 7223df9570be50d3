/** Whether an npm package name is one edit away from a well-known one. */
module ConfusableNames {
  import opened EditDistance
  import opened Naturals

  // ----- the two-row table

  /** The first `n` entries of a row belong to the prefix `a`. */
  ghost predicate RowOf(row: seq<nat>, a: string, b: string, n: nat) {
    n <= |row| == |b| + 1 && forall j :: 0 <= j < n ==> row[j] == Dist(a, b[..j])
  }

  lemma FirstRow(row: seq<nat>, b: string)
    requires |row| == |b| + 1 && forall j :: 0 <= j < |row| ==> row[j] == j
    ensures RowOf(row, "", b, |row|)
  {}

  lemma RowStart(row: seq<nat>, a: string, b: string)
    requires |row| == |b| + 1 && row[0] == |a|
    ensures RowOf(row, a, b, 1)
  {
    assert b[..0] == "";
  }

  lemma RowStep(above: seq<nat>, row: seq<nat>, a: string, x: char, b: string, j: nat)
    requires RowOf(above, a, b, |b| + 1) && RowOf(row, a + [x], b, j + 1) && j < |b|
    ensures Dist(a + [x], b[..j + 1]) == Min(Min(row[j] + 1, above[j + 1] + 1), above[j] + Cost(x, b[j]))
  {
    assert Front(a + [x]) == a && Front(b[..j + 1]) == b[..j];
  }

  lemma RowExtended(row: seq<nat>, next: seq<nat>, a: string, b: string, j: nat)
    requires RowOf(row, a, b, j) && j < |row| == |next|
    requires next == row[j := next[j]] && next[j] == Dist(a, b[..j])
    ensures RowOf(next, a, b, j + 1)
  {}

  /** Fills the row of `a + [x]` from the row of `a`. */
  method FillRow(previous: array<nat>, current: array<nat>, ghost a: string, x: char, b: string)
    requires previous != current && previous.Length == current.Length
    requires RowOf(previous[..], a, b, |b| + 1)
    modifies current
    ensures RowOf(current[..], a + [x], b, |b| + 1)
  {
    hide Dist;
    ghost var above := previous[..];
    RowFromFront(above, a, b);
    current[0] := previous[0] + 1;
    RowStart(current[..], a + [x], b);
    for j := 0 to |b|
      invariant previous[..] == above && RowOf(current[..], a + [x], b, j + 1)
    {
      ghost var before := current[..];
      RowStep(above, before, a, x, b, j);
      current[j + 1] := Min(Min(current[j] + 1, previous[j + 1] + 1), previous[j] + Cost(x, b[j]));
      RowExtended(before, current[..], a + [x], b, j + 1);
    }
  }

  lemma RowFromFront(row: seq<nat>, a: string, b: string)
    requires RowOf(row, a, b, |b| + 1)
    ensures row[0] == |a| && row[|b|] == Dist(a, b)
  {
    assert b[..0] == "" && b[..|b|] == b;
  }

  /** Two rows that swap roles compute the edit distance. */
  method LevenshteinDistance(left: string, right: string) returns (d: nat)
    ensures d == Dist(left, right)
  {
    if left == right {
      ZeroIffEqual(left, right);
      return 0;
    }
    if left == "" { return |right|; }
    if right == "" { return |left|; }
    var previous := new nat[|right| + 1](j => j);
    var current := new nat[|right| + 1](_ => 0);
    FirstRow(previous[..], right);
    assert left[..0] == "";
    for i := 0 to |left|
      invariant fresh(previous) && fresh(current) && previous != current
      invariant previous.Length == current.Length == |right| + 1
      invariant RowOf(previous[..], left[..i], right, |right| + 1)
    {
      assert left[..i + 1] == left[..i] + [left[i]];
      FillRow(previous, current, left[..i], left[i], right);
      previous, current := current, previous;
    }
    assert left[..|left|] == left;
    RowFromFront(previous[..], left, right);
    return previous[|right|];
  }

  // ----- the name check

  predicate IsSeparator(c: char) { c == '-' || c == '_' || c == '.' }

  function Lower(c: char): char { if 'A' <= c <= 'Z' then (c as int + 32) as char else c }

  function Lowered(s: string): string { seq(|s|, i requires 0 <= i < |s| => Lower(s[i])) }

  /** What comes behind the last slash. */
  function Unscoped(s: string): string {
    if s == "" || Last(s) == '/' then "" else Unscoped(Front(s)) + [Last(s)]
  }

  /** What comes before the first separator. */
  function Leading(s: string): string {
    if s == "" || IsSeparator(s[0]) then "" else [s[0]] + Leading(s[1..])
  }

  function Core(package: string): string { Lowered(Leading(Unscoped(package))) }

  /** The length in UTF-8. */
  function ByteLength(s: string): nat {
    if s == "" then 0
    else ByteLength(s[1..]) + if s[0] < '\U{80}' then 1 else if s[0] < '\U{800}' then 2 else if s[0] < '\U{10000}' then 3 else 4
  }

  /** UTF-8 takes as many bytes for a text as for its characters together: for one of seven bits
      one byte, of up to eleven two, of up to sixteen three, and otherwise four. */
  lemma {:induction false} ByteLengthAdds(s: string, t: string, c: char)
    ensures ByteLength(s + t) == ByteLength(s) + ByteLength(t)
    ensures var n, code := ByteLength([c]), c as int;
      1 <= n <= 4 && (n <= 1 <==> code < 0x80) && (n <= 2 <==> code < 0x800) && (n <= 3 <==> code < 0x1_0000)
  {
    if s == "" {
      assert s + t == t;
    } else {
      ByteLengthAdds(s[1..], t, c);
      assert (s + t)[1..] == s[1..] + t;
    }
  }

  /** No character takes less than a byte or more than four; only ASCII takes one. */
  lemma {:induction false} ByteLengthIs(s: string)
    ensures |s| <= ByteLength(s) <= 4 * |s|
    ensures ByteLength(s) == |s| <==> forall i :: 0 <= i < |s| ==> s[i] as int < 128
  {
    if s != "" {
      ByteLengthIs(s[1..]);
      assert forall i :: 0 < i < |s| ==> s[i] == s[1..][i - 1];
    }
  }

  const POPULAR := ["undici", "axios", "react", "lodash", "express", "chalk", "minimatch", "request"]

  /** A core of at least five bytes that one insertion, deletion or substitution turns into a
      popular name, and that is not that name. */
  ghost predicate Confusable(package: string) {
    ByteLength(Core(package)) >= 5 && exists name :: name in POPULAR && name != Core(package) && OneEdit(Core(package), name)
  }

  method ConfusableNpmPackageCore(package: string) returns (confusable: bool)
    ensures confusable <==> Confusable(package)
  {
    hide OneEdit, Dist, Core, ByteLength;
    var core := Core(package);
    if ByteLength(core) < 5 { return false; }
    for n := 0 to |POPULAR|
      invariant forall i :: 0 <= i < n ==> POPULAR[i] == core || !OneEdit(core, POPULAR[i])
    {
      var candidate := POPULAR[n];
      NearIffOneEdit(core, candidate);
      if core != candidate {
        var distance := LevenshteinDistance(core, candidate);
        if distance <= 1 { return true; }
      }
    }
    return false;
  }

  lemma {:induction false} UnscopedBehind(scope: string, name: string)
    requires scope == "" || Last(scope) == '/'
    requires '/' !in name
    ensures Unscoped(scope + name) == name
  {
    if name == "" {
      assert scope + name == scope;
    } else {
      assert Front(scope + name) == scope + Front(name) && name == Front(name) + [Last(name)];
      UnscopedBehind(scope, Front(name));
    }
  }

  lemma {:induction false} LeadingBefore(core: string, more: string)
    requires forall i :: 0 <= i < |core| ==> !IsSeparator(core[i])
    requires more == "" || IsSeparator(more[0])
    ensures Leading(core + more) == core
  {
    if core == "" {
      assert core + more == more;
    } else {
      assert (core + more)[1..] == core[1..] + more;
      LeadingBefore(core[1..], more);
    }
  }

  const UPPER := "ABCDEFGHIJKLMNOPQRSTUVWXYZ"
  const LOWER := "abcdefghijklmnopqrstuvwxyz"

  /** Each capital letter of `s` stands as its small one in `t`, all else as it is. */
  ghost predicate IsLowered(s: string, t: string) {
    && |t| == |s|
    && (forall i, k :: 0 <= i < |s| && 0 <= k < |UPPER| && s[i] == UPPER[k] ==> t[i] == LOWER[k])
    && (forall i :: 0 <= i < |s| && s[i] !in UPPER ==> t[i] == s[i])
  }

  lemma Alphabet(k: nat)
    requires k < |UPPER|
    ensures |LOWER| == |UPPER| == 26 && UPPER[k] as int == 65 + k && LOWER[k] as int == 97 + k
  {}

  lemma CapitalIsUpper(c: char)
    requires 'A' <= c <= 'Z'
    ensures c in UPPER
  {
    Alphabet(c as int - 65);
    assert UPPER[c as int - 65] == c;
  }

  lemma LoweredIs(s: string)
    ensures IsLowered(s, Lowered(s))
  {
    forall i, k | 0 <= i < |s| && 0 <= k < |UPPER| && s[i] == UPPER[k] ensures Lowered(s)[i] == LOWER[k] { Alphabet(k); }
    forall i | 0 <= i < |s| && s[i] !in UPPER ensures Lowered(s)[i] == s[i] {
      if 'A' <= s[i] <= 'Z' { CapitalIsUpper(s[i]); }
    }
  }

  /** A scope up to a slash, a core without separators, and the rest from a separator on. */
  ghost predicate AreParts(scope: string, core: string, more: string) {
    && (scope == "" || Last(scope) == '/') && '/' !in core && '/' !in more
    && (forall c :: c in core ==> c != '-' && c != '_' && c != '.')
    && (more == "" || more[0] == '-' || more[0] == '_' || more[0] == '.')
  }

  /** The core of a name is what stands between its scope and its first separator, in lower
      case. */
  lemma CoreOfParts(scope: string, core: string, more: string)
    requires AreParts(scope, core, more)
    ensures IsLowered(core, Core(scope + (core + more)))
  {
    forall i | 0 <= i < |core| ensures !IsSeparator(core[i]) { assert core[i] in core; }
    UnscopedBehind(scope, core + more);
    LeadingBefore(core, more);
    LoweredIs(core);
  }

  /** Every name has such parts. */
  lemma {:induction false} EveryNameHasParts(package: string) returns (scope: string, core: string, more: string)
    ensures AreParts(scope, core, more) && package == scope + (core + more)
  {
    if package == "" {
      scope, core, more := "", "", "";
    } else {
      var c := Last(package);
      assert package == Front(package) + [c];
      if c == '/' {
        scope, core, more := package, "", "";
      } else {
        scope, core, more := EveryNameHasParts(Front(package));
        if more == "" && c != '-' && c != '_' && c != '.' {
          core := core + [c];
        } else {
          more := more + [c];
        }
      }
    }
  }
}
