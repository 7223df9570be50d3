/** How a baseline import splits its package and edge budgets into windows. */
module BaselineWindows {

  const PACKAGE_WINDOW := 100

  datatype Window = Window(packages: nat, offset: nat, edges: nat)

  function CeilDiv(a: nat, b: nat): nat
    requires b > 0
  {
    (a + b - 1) / b
  }

  lemma SmallMultiple(k: int, b: int)
    requires -b < k * b < b
    ensures k == 0
  {}

  lemma DivUnique(a: nat, b: nat, q: nat, r: nat)
    requires b > 0 && a == q * b + r && r < b
    ensures a / b == q && a % b == r
  {
    assert (a / b - q) * b == r - a % b;
    SmallMultiple(a / b - q, b);
  }

  lemma CeilOfSum(q: nat, b: nat, r: nat)
    requires b > 0 && r < b
    ensures CeilDiv(q * b + r, b) == q + (if r > 0 then 1 else 0)
  {
    if r > 0 {
      assert (q + 1) * b == q * b + b;
      DivUnique(q * b + r + b - 1, b, q + 1, r - 1);
    } else {
      DivUnique(q * b + b - 1, b, q, b - 1);
    }
  }

  /** The fair share of `total` for part `i` of `parts`: the remainder goes to the first. */
  function Share(total: nat, parts: nat, i: nat): nat
    requires i < parts
  {
    total / parts + if i < total % parts then 1 else 0
  }

  function Product(a: nat, b: nat): nat { a * b }

  /** What is left of `total` before part `i` takes its share. */
  function Left(total: nat, parts: nat, i: nat): nat
    requires parts > 0 && i <= parts
  {
    Product(total / parts, parts - i) + if i < total % parts then total % parts - i else 0
  }

  /** Asking for the ceiling of what is left over what remains gives each its fair share. */
  lemma GreedyIsFair(total: nat, parts: nat, i: nat)
    requires i < parts
    ensures CeilDiv(Left(total, parts, i), parts - i) == Share(total, parts, i)
    ensures Left(total, parts, i + 1) == Left(total, parts, i) - Share(total, parts, i)
  {
    var q, r := total / parts, total % parts;
    CeilOfSum(q, parts - i, if i < r then r - i else 0);
    assert q * (parts - i) == q * (parts - (i + 1)) + q;
  }

  lemma LeftAtStart(total: nat, parts: nat)
    requires parts > 0
    ensures Left(total, parts, 0) == total && Left(total, parts, parts) == 0
  {}

  function WindowCount(packages: nat): nat { CeilDiv(packages, PACKAGE_WINDOW) }

  function WindowAt(packages: nat, offset: nat, edges: nat, i: nat): Window
    requires i < WindowCount(packages)
  {
    var whole := PACKAGE_WINDOW * i;
    Window(if packages - whole < PACKAGE_WINDOW then packages - whole else PACKAGE_WINDOW, offset + whole,
           if edges > 0 then Share(edges, WindowCount(packages), i) else 0)
  }

  /** Windows of a hundred packages, the last one smaller, side by side from the offset, each
      with its fair share of the edges; no limit is written as zero. */
  method BaselinePackageWindows(packages: nat, offset0: nat, edges: nat) returns (windows: seq<Window>)
    ensures |windows| == WindowCount(packages)
    ensures forall i :: 0 <= i < |windows| ==> windows[i] == WindowAt(packages, offset0, edges, i)
  {
    if packages == 0 { return []; }
    var total := CeilDiv(packages, PACKAGE_WINDOW);
    windows := [];
    var remainingPackages, remainingEdges, offset := packages, edges, offset0;
    LeftAtStart(edges, total);
    for i := 0 to total
      invariant |windows| == i && forall j :: 0 <= j < i ==> windows[j] == WindowAt(packages, offset0, edges, j)
      invariant i < total ==> remainingPackages == packages - PACKAGE_WINDOW * i && offset == offset0 + PACKAGE_WINDOW * i
      invariant edges > 0 ==> remainingEdges == Left(edges, total, i)
    {
      GreedyIsFair(edges, total, i);
      var limit := if remainingPackages < PACKAGE_WINDOW then remainingPackages else PACKAGE_WINDOW;
      var quota := if edges > 0 then CeilDiv(remainingEdges, total - i) else 0;
      windows := windows + [Window(limit, offset, quota)];
      remainingPackages := remainingPackages - limit;
      remainingEdges := if remainingEdges >= quota then remainingEdges - quota else 0;
      offset := offset + limit;
    }
  }

  function Windows(packages: nat, offset: nat, edges: nat): (w: seq<Window>) {
    seq(WindowCount(packages), i requires 0 <= i < WindowCount(packages) => WindowAt(packages, offset, edges, i))
  }

  function PackageSum(w: seq<Window>): nat { if w == [] then 0 else PackageSum(w[..|w| - 1]) + w[|w| - 1].packages }

  function EdgeSum(w: seq<Window>): nat { if w == [] then 0 else EdgeSum(w[..|w| - 1]) + w[|w| - 1].edges }

  /** The windows are contiguous; all hold a hundred but the last, which is never empty. */
  lemma WindowsAreContiguous(packages: nat, offset: nat, edges: nat, i: nat)
    requires i < WindowCount(packages)
    ensures var w := Windows(packages, offset, edges);
            && 1 <= w[i].packages <= 100 && (i + 1 < |w| ==> w[i].packages == 100)
            && w[0].offset == offset
            && (i + 1 < |w| ==> w[i + 1].offset == w[i].offset + w[i].packages)
            && (i + 1 == |w| ==> w[i].offset + w[i].packages == offset + packages)
  {}

  lemma {:induction false} PackagesOfFirst(packages: nat, offset: nat, edges: nat, n: nat)
    requires n <= WindowCount(packages)
    ensures PackageSum(Windows(packages, offset, edges)[..n]) == if PACKAGE_WINDOW * n < packages then PACKAGE_WINDOW * n else packages
  {
    if n > 0 {
      var w := Windows(packages, offset, edges);
      PackagesOfFirst(packages, offset, edges, n - 1);
      assert w[..n][..n - 1] == w[..n - 1];
    }
  }

  lemma NoShare(parts: nat, i: nat)
    requires i < parts
    ensures Share(0, parts, i) == 0
  {}

  lemma {:induction false} EdgesOfFirst(packages: nat, offset: nat, edges: nat, n: nat)
    requires packages > 0 && n <= WindowCount(packages)
    ensures EdgeSum(Windows(packages, offset, edges)[..n]) == edges - Left(edges, WindowCount(packages), n)
  {
    LeftAtStart(edges, WindowCount(packages));
    if n > 0 {
      var w := Windows(packages, offset, edges);
      EdgesOfFirst(packages, offset, edges, n - 1);
      assert w[..n][..n - 1] == w[..n - 1];
      GreedyIsFair(edges, WindowCount(packages), n - 1);
      NoShare(WindowCount(packages), n - 1);
    }
  }

  /** The package limits sum to the package budget, whatever the edge budget. */
  lemma PackagesAreSpent(packages: nat, offset: nat, edges: nat)
    ensures PackageSum(Windows(packages, offset, edges)) == packages
  {
    var w := Windows(packages, offset, edges);
    PackagesOfFirst(packages, offset, edges, |w|);
    assert w[..|w|] == w;
  }

  /** The edge quotas sum to the edge budget; a budget of zero gives every window zero. */
  lemma EdgesAreSpent(packages: nat, offset: nat, edges: nat)
    requires packages > 0
    ensures EdgeSum(Windows(packages, offset, edges)) == edges
  {
    var w := Windows(packages, offset, edges);
    EdgesOfFirst(packages, offset, edges, |w|);
    LeftAtStart(edges, |w|);
    assert w[..|w|] == w;
  }

  lemma QuotientPositive(a: nat, b: nat)
    requires b > 0
    ensures a >= b ==> a / b > 0
    ensures a < b ==> a / b == 0 && a % b == a
  {
    if a < b { DivUnique(a, b, 0, a); }
  }

  lemma CeilOfTotal(a: nat, b: nat)
    requires b > 0
    ensures CeilDiv(a, b) == a / b + (if a % b > 0 then 1 else 0)
  {
    hide CeilDiv;
    var q, r := a / b, a % b;
    DivMod(a, b);
    CeilOfSum(q, b, r);
  }

  lemma DivMod(a: nat, b: nat)
    requires b > 0
    ensures a == (a / b) * b + a % b
  {}

  lemma SharesAreFair(total: nat, parts: nat, i: nat, j: nat)
    requires i <= j < parts
    ensures Share(total, parts, j) <= Share(total, parts, i) <= Share(total, parts, j) + 1
    ensures Share(total, parts, i) == total / parts || Share(total, parts, i) == CeilDiv(total, parts)
    ensures total < parts ==> (Share(total, parts, i) == 0 <==> i >= total)
    ensures total >= parts ==> Share(total, parts, i) > 0
  {
    hide CeilDiv;
    CeilOfTotal(total, parts);
    QuotientPositive(total, parts);
  }

  /** Quotas never grow, differ by at most one, and are the floor or the ceiling of an equal
      split; some are zero exactly when there are fewer edges than windows. */
  lemma QuotasAreFair(packages: nat, offset: nat, edges: nat, i: nat, j: nat)
    requires i <= j < WindowCount(packages) && edges > 0
    ensures var w, total := Windows(packages, offset, edges), WindowCount(packages);
            && w[j].edges <= w[i].edges <= w[j].edges + 1
            && (w[i].edges == edges / total || w[i].edges == CeilDiv(edges, total))
            && (edges < total ==> (w[i].edges == 0 <==> i >= edges))
            && (edges >= total ==> w[i].edges > 0)
  {
    hide Share, CeilDiv;
    SharesAreFair(edges, WindowCount(packages), i, j);
  }
}
