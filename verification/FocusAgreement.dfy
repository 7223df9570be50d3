/** The three focus searches answer the same question when none is cut short. */
module FocusAgreement {
  import opened Ball
  import Layered = LayeredFocus
  import Local = LocalFocus
  import Offline = OfflineFocus

  ghost predicate NoSelfDependence(g: Graph) { forall p :: p !in Next(g, p) }

  /** The marking on push, the marking on pop and the layered search visit the same packages
      when none of them is truncated. */
  lemma SameVisited(g: Graph, target: Package, limit: nat, max: nat,
                    offline: Offline.Focus, local: set<Package>, localMax: nat, localTruncated: bool, layered: Layered.State)
    requires Offline.IsFocus(g, target, limit, max, offline) && !offline.truncated
    requires Local.IsLocalFocus(g, target, limit, localMax, local, localTruncated) && !localTruncated
    requires Layered.IsLayeredFocus(g, target, limit, max, layered)
    ensures !layered.truncated
    ensures offline.visited == local == layered.visited == Within(g, {target}, limit)
  {
    hide Within;
    SubsetSize(offline.visited, Within(g, {target}, limit));
    SubsetSize(layered.visited, Within(g, {target}, limit));
  }

  /** The layered search emits exactly those induced edges whose dependency lies strictly
      inside the ball: at the rim it never asks who depends on whom. */
  lemma LayeredEdgesAreInner(g: Graph, target: Package, limit: nat, max: nat, offline: Offline.Focus, layered: Layered.State, e: (Package, Package))
    requires NoSelfDependence(g)
    requires Offline.IsFocus(g, target, limit, max, offline) && !offline.truncated
    requires Layered.IsLayeredFocus(g, target, limit, max, layered)
    ensures e in layered.edges <==> e in offline.edges && limit > 0 && e.1 in Within(g, {target}, limit - 1)
  {
    hide Within;
    SubsetSize(offline.visited, Within(g, {target}, limit));
    SubsetSize(layered.visited, Within(g, {target}, limit));
    assert e == (e.0, e.1);
    if limit > 0 { WithinGrows(g, {target}, limit - 1, limit); }
    if limit > 0 && e.1 in Within(g, {target}, limit - 1) && e.0 in Next(g, e.1) {
      WithinStep(g, {target}, limit - 1, e.1, e.0);
    }
  }

  /** The edge a layered search leaves out: one package on the rim depends on another, which
      only the offline search reports. */
  lemma RimEdgeMissing(offline: Offline.Focus, layered: Layered.State)
    requires Offline.IsFocus(RimGraph(), 0, 1, 5, offline) && Layered.IsLayeredFocus(RimGraph(), 0, 1, 5, layered)
    ensures offline.visited == layered.visited == {0, 1, 2}
    ensures (2, 1) in offline.edges && (2, 1) !in layered.edges
  {
    var g := RimGraph();
    assert Within(g, {0}, 0) == {0};
    assert Neighbours(g, {0}) == {1, 2} by {
      assert Next(g, 0) == {1, 2};
    }
    WithinUnfold(g, {0}, 1);
    assert Within(g, {0}, 1) == {0, 1, 2};
    SubsetSize(offline.visited, {0, 1, 2});
    SubsetSize(layered.visited, {0, 1, 2});
    assert Offline.Induced(g, offline.visited, (2, 1));
    LayeredEdgesAreInner(g, 0, 1, 5, offline, layered, (2, 1));
  }

  /** Packages 1 and 2 depend on 0, and 2 also depends on 1. */
  function RimGraph(): Graph { map[0 := {1, 2}, 1 := {2}] }
}
