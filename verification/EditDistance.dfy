/** The edit distance behind the confusable package name check. */
module EditDistance {
  import opened Naturals

  function Cost(x: char, y: char): nat { if x == y then 0 else 1 }

  function Front(s: string): string
    requires s != ""
  {
    s[..|s| - 1]
  }

  function Last(s: string): char
    requires s != ""
  {
    s[|s| - 1]
  }

  function Dist(a: string, b: string): nat
    decreases |a| + |b|
  {
    if a == "" then |b|
    else if b == "" then |a|
    else Min(Min(Dist(Front(a), b) + 1, Dist(a, Front(b)) + 1), Dist(Front(a), Front(b)) + Cost(Last(a), Last(b)))
  }

  // ----- a metric

  lemma {:induction false} Symmetric(a: string, b: string)
    ensures Dist(a, b) == Dist(b, a)
    decreases |a| + |b|
  {
    if a != "" && b != "" {
      Symmetric(Front(a), b);
      Symmetric(a, Front(b));
      Symmetric(Front(a), Front(b));
    }
  }

  lemma {:induction false} LengthBound(a: string, b: string)
    ensures |a| <= |b| + Dist(a, b) && |b| <= |a| + Dist(a, b) && Dist(a, b) <= |a| + |b|
    decreases |a| + |b|
  {
    if a != "" && b != "" {
      LengthBound(Front(a), b);
      LengthBound(a, Front(b));
      LengthBound(Front(a), Front(b));
    }
  }

  lemma {:induction false} ZeroIffEqual(a: string, b: string)
    ensures Dist(a, b) == 0 <==> a == b
    decreases |a| + |b|
  {
    if a != "" && b != "" {
      ZeroIffEqual(Front(a), Front(b));
      assert a == Front(a) + [Last(a)] && b == Front(b) + [Last(b)];
    }
  }

  lemma {:induction false} Triangle(a: string, b: string, c: string)
    ensures Dist(a, c) <= Dist(a, b) + Dist(b, c)
    decreases |a| + |b| + |c|
  {
    LengthBound(a, b);
    LengthBound(b, c);
    LengthBound(a, c);
    if a != "" && b != "" && c != "" {
      Triangle(Front(a), b, c);
      Triangle(a, b, Front(c));
      Triangle(a, Front(b), c);
      Triangle(a, Front(b), Front(c));
      Triangle(Front(a), Front(b), c);
      Triangle(Front(a), Front(b), Front(c));
    }
  }

  // ----- counting edits

  ghost predicate Inserted(a: string, b: string) { exists i: nat, x :: InsertedAt(a, b, i, x) }

  predicate InsertedAt(a: string, b: string, i: nat, x: char) { i <= |a| && b == a[..i] + ([x] + a[i..]) }

  ghost predicate Substituted(a: string, b: string) { exists i: nat, x :: SubstitutedAt(a, b, i, x) }

  predicate SubstitutedAt(a: string, b: string, i: nat, x: char) { i < |a| && b == a[..i] + ([x] + a[i + 1..]) }

  /** One character inserted, deleted or substituted. */
  ghost predicate OneEdit(a: string, b: string) { Inserted(a, b) || Inserted(b, a) || Substituted(a, b) }

  /** At most `k` edits lead from one to the other. */
  ghost predicate Edits(a: string, b: string, k: nat)
    decreases k
  {
    a == b || (k > 0 && exists m :: OneEdit(a, m) && Edits(m, b, k - 1))
  }

  lemma {:induction false} SharedTail(a: string, b: string, s: string)
    ensures Dist(a + s, b + s) <= Dist(a, b)
  {
    if s == "" {
      assert a + s == a && b + s == b;
    } else {
      SharedTail(a, b, Front(s));
      assert Front(a + s) == a + Front(s) && Front(b + s) == b + Front(s);
    }
  }

  lemma EditIsNear(a: string, b: string)
    requires OneEdit(a, b)
    ensures Dist(a, b) <= 1
  {
    if Inserted(a, b) {
      var i: nat, x :| InsertedAt(a, b, i, x);
      InsertIsNear(a[..i], x, a[i..]);
      assert a == a[..i] + a[i..];
    } else if Inserted(b, a) {
      var i: nat, x :| InsertedAt(b, a, i, x);
      InsertIsNear(b[..i], x, b[i..]);
      assert b == b[..i] + b[i..];
      Symmetric(a, b);
    } else {
      var i: nat, x :| SubstitutedAt(a, b, i, x);
      SubstituteIsNear(a[..i], a[i], x, a[i + 1..]);
      assert a == a[..i] + ([a[i]] + a[i + 1..]);
    }
  }

  lemma InsertIsNear(p: string, x: char, s: string)
    ensures Dist(p + s, p + ([x] + s)) <= 1
  {
    ZeroIffEqual(p, p);
    assert Front(p + [x]) == p;
    SharedTail(p, p + [x], s);
    assert (p + [x]) + s == p + ([x] + s);
  }

  lemma SubstituteIsNear(p: string, x: char, y: char, s: string)
    ensures Dist(p + ([x] + s), p + ([y] + s)) <= 1
  {
    ZeroIffEqual(p, p);
    assert Front(p + [x]) == p && Front(p + [y]) == p;
    SharedTail(p + [x], p + [y], s);
    assert (p + [x]) + s == p + ([x] + s) && (p + [y]) + s == p + ([y] + s);
  }

  lemma {:induction false} EditsAreNear(a: string, b: string, k: nat)
    requires Edits(a, b, k)
    ensures Dist(a, b) <= k
    decreases k
  {
    if a == b {
      ZeroIffEqual(a, b);
    } else {
      var m :| OneEdit(a, m) && Edits(m, b, k - 1);
      EditIsNear(a, m);
      EditsAreNear(m, b, k - 1);
      Triangle(a, m, b);
    }
  }

  lemma {:induction false} EditsThenOne(a: string, m: string, b: string, k: nat)
    requires Edits(a, m, k) && OneEdit(m, b)
    ensures Edits(a, b, k + 1)
    decreases k
  {
    if a == m {
      assert Edits(b, b, k);
    } else {
      var n :| OneEdit(a, n) && Edits(n, m, k - 1);
      EditsThenOne(n, m, b, k - 1);
    }
  }

  lemma OneEditExtended(a: string, b: string, x: char)
    requires OneEdit(a, b)
    ensures OneEdit(a + [x], b + [x])
  {
    if Inserted(a, b) {
      var i: nat, y :| InsertedAt(a, b, i, y);
      InsertExtended(a, b, i, y, x);
    } else if Inserted(b, a) {
      var i: nat, y :| InsertedAt(b, a, i, y);
      InsertExtended(b, a, i, y, x);
    } else {
      var i: nat, y :| SubstitutedAt(a, b, i, y);
      assert (a + [x])[..i] == a[..i] && (a + [x])[i + 1..] == a[i + 1..] + [x];
      assert SubstitutedAt(a + [x], b + [x], i, y);
    }
  }

  lemma InsertExtended(a: string, b: string, i: nat, y: char, x: char)
    requires InsertedAt(a, b, i, y)
    ensures Inserted(a + [x], b + [x])
  {
    assert (a + [x])[..i] == a[..i] && (a + [x])[i..] == a[i..] + [x];
    assert InsertedAt(a + [x], b + [x], i, y);
  }

  lemma {:induction false} EditsExtended(a: string, b: string, x: char, k: nat)
    requires Edits(a, b, k)
    ensures Edits(a + [x], b + [x], k)
    decreases k
  {
    if a != b {
      var m :| OneEdit(a, m) && Edits(m, b, k - 1);
      OneEditExtended(a, m, x);
      EditsExtended(m, b, x, k - 1);
    }
  }

  lemma {:induction false} EditsWeaken(a: string, b: string, k: nat, l: nat)
    requires Edits(a, b, k) && k <= l
    ensures Edits(a, b, l)
    decreases k
  {
    if a != b {
      var m :| OneEdit(a, m) && Edits(m, b, k - 1);
      EditsWeaken(m, b, k - 1, l - 1);
    }
  }

  lemma LastDeleted(a: string)
    requires a != ""
    ensures OneEdit(a, Front(a)) && OneEdit(Front(a), a)
  {
    assert a == Front(a)[..|a| - 1] + ([Last(a)] + Front(a)[|a| - 1..]);
    assert InsertedAt(Front(a), a, |a| - 1, Last(a));
  }

  lemma LastSubstituted(p: string, x: char, y: char)
    ensures OneEdit(p + [x], p + [y])
  {
    assert (p + [x])[..|p|] == p && (p + [x])[|p| + 1..] == "";
    assert SubstitutedAt(p + [x], p + [y], |p|, y);
  }

  lemma {:induction false} DistIsReached(a: string, b: string)
    ensures Edits(a, b, Dist(a, b))
    decreases |a| + |b|
  {
    if a == "" && b == "" {
    } else if b != "" && (a == "" || Dist(a, b) == Dist(a, Front(b)) + 1) {
      DistIsReached(a, Front(b));
      LastDeleted(b);
      EditsThenOne(a, Front(b), b, Dist(a, Front(b)));
    } else if a != "" && (b == "" || Dist(a, b) == Dist(Front(a), b) + 1) {
      DistIsReached(Front(a), b);
      LastDeleted(a);
    } else {
      LastReached(a, b);
    }
  }

  lemma {:induction false} LastReached(a: string, b: string)
    requires a != "" && b != "" && Dist(a, b) == Dist(Front(a), Front(b)) + Cost(Last(a), Last(b))
    ensures Edits(a, b, Dist(a, b))
    decreases |a| + |b|, 0
  {
    hide Dist, Edits, OneEdit;
    var p, q, x, y := Front(a), Front(b), Last(a), Last(b);
    DistIsReached(p, q);
    assert a == p + [x] && b == q + [y];
    EditsExtended(p, q, x, Dist(p, q));
    if x != y {
      LastSubstituted(q, x, y);
      EditsThenOne(a, q + [x], b, Dist(p, q));
    }
  }

  /** The distance is the least number of single-character edits. */
  lemma DistIsLeastEdits(a: string, b: string, k: nat)
    ensures Edits(a, b, k) <==> Dist(a, b) <= k
  {
    if Edits(a, b, k) { EditsAreNear(a, b, k); }
    DistIsReached(a, b);
    if Dist(a, b) <= k { EditsWeaken(a, b, Dist(a, b), k); }
  }

  /** A distance of at most one is equality or a single edit. */
  lemma NearIffOneEdit(a: string, b: string)
    ensures Dist(a, b) <= 1 <==> a == b || OneEdit(a, b)
  {
    DistIsLeastEdits(a, b, 1);
    if a != b && OneEdit(a, b) { assert Edits(b, b, 0); }
  }
}
