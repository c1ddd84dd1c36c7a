/**
 * The quest graph as the model returns it: one JSON array mixing node
 * objects and edge objects. getQuest splits it into a node list and an edge
 * list before storing them; getQuestById appends the edges after the nodes
 * again.
 */
module Graph {
  import opened Json

  /**
   * An element is an edge when it has a "source" field; everything else is a
   * node. has("source") agrees with get("source") giving a value.
   */
  predicate IsEdge(x: Json): (b: bool)
    ensures b <==> Get(x, "source").Some?
  {
    Has(x, "source")
  }

  /**
   * The elements of xs that are edges (edge = true) or nodes (edge = false),
   * in their original order: what the split loop appends to one of its lists.
   */
  function OfKind(xs: seq<Json>, edge: bool): (r: seq<Json>)
    ensures |r| <= |xs|
    ensures forall k :: 0 <= k < |r| ==> IsEdge(r[k]) == edge
  {
    if xs == [] then []
    else OfKind(xs[..|xs| - 1], edge) + (if IsEdge(xs[|xs| - 1]) == edge then [xs[|xs| - 1]] else [])
  }

  /**
   * The split loop: every element goes to edges when it has "source", to
   * nodes otherwise, appended in iteration order.
   */
  method Split(root: Json) returns (nodes: seq<Json>, edges: seq<Json>)
    ensures nodes == OfKind(Elements(root), false)
    ensures edges == OfKind(Elements(root), true)
  {
    var xs := Elements(root);
    nodes, edges := [], [];
    for i := 0 to |xs|
      invariant nodes == OfKind(xs[..i], false)
      invariant edges == OfKind(xs[..i], true)
    {
      assert xs[..i + 1][..i] == xs[..i];
      if IsEdge(xs[i]) {
        edges := edges + [xs[i]];
      } else {
        nodes := nodes + [xs[i]];
      }
    }
    assert xs[..|xs|] == xs;
  }

  /** Ascending indices of the elements of xs of the given kind. */
  function Positions(xs: seq<Json>, edge: bool): seq<nat> {
    if xs == [] then []
    else Positions(xs[..|xs| - 1], edge) + (if IsEdge(xs[|xs| - 1]) == edge then [|xs| - 1] else [])
  }

  /**
   * Stability: each list holds exactly the elements of its kind, taken at
   * strictly increasing positions of xs, and no element of that kind is
   * skipped.
   */
  lemma {:induction false} OfKindIsStable(xs: seq<Json>, edge: bool)
    ensures |Positions(xs, edge)| == |OfKind(xs, edge)|
    ensures forall k :: 0 <= k < |Positions(xs, edge)| ==>
              Positions(xs, edge)[k] < |xs| && OfKind(xs, edge)[k] == xs[Positions(xs, edge)[k]]
    ensures forall k, l :: 0 <= k < l < |Positions(xs, edge)| ==> Positions(xs, edge)[k] < Positions(xs, edge)[l]
    ensures forall i :: 0 <= i < |xs| && IsEdge(xs[i]) == edge ==> i in Positions(xs, edge)
  {
    if xs != [] {
      var init := xs[..|xs| - 1];
      OfKindIsStable(init, edge);
      assert forall i :: 0 <= i < |init| ==> init[i] == xs[i];
    }
  }

  /** Every element lands in exactly one of the two lists. */
  lemma {:induction false} SplitSizes(xs: seq<Json>)
    ensures |OfKind(xs, false)| + |OfKind(xs, true)| == |xs|
  {
    if xs != [] {
      SplitSizes(xs[..|xs| - 1]);
    }
  }

  /** Together the two lists hold the elements of xs, each as often as in xs. */
  lemma {:induction false} SplitIsPermutation(xs: seq<Json>)
    ensures multiset(OfKind(xs, false)) + multiset(OfKind(xs, true)) == multiset(xs)
  {
    if xs != [] {
      var init := xs[..|xs| - 1];
      SplitIsPermutation(init);
      assert xs == init + [xs[|xs| - 1]];
    }
  }

  /** No node comes after an edge. */
  predicate NodesBeforeEdges(xs: seq<Json>) {
    forall i, j :: 0 <= i < j < |xs| && IsEdge(xs[i]) ==> IsEdge(xs[j])
  }

  /** A list with no edges is all nodes. */
  lemma {:induction false} NoEdges(xs: seq<Json>)
    requires forall i :: 0 <= i < |xs| ==> !IsEdge(xs[i])
    ensures OfKind(xs, false) == xs && OfKind(xs, true) == []
  {
    if xs != [] {
      NoEdges(xs[..|xs| - 1]);
      assert xs == xs[..|xs| - 1] + [xs[|xs| - 1]];
    }
  }

  /**
   * Nodes followed by edges gives back the original array exactly when no
   * node comes after an edge in it; otherwise reassembly is a reorder.
   */
  lemma {:induction false} ReassemblyIsIdentityIff(xs: seq<Json>)
    ensures OfKind(xs, false) + OfKind(xs, true) == xs <==> NodesBeforeEdges(xs)
  {
    var nodes, edges := OfKind(xs, false), OfKind(xs, true);
    if NodesBeforeEdges(xs) {
      ReassemblyOfOrdered(xs);
    }
    if nodes + edges == xs {
      assert forall k :: 0 <= k < |nodes| ==> xs[k] == nodes[k];
      assert forall k :: |nodes| <= k < |xs| ==> xs[k] == edges[k - |nodes|];
    }
  }

  lemma {:induction false} ReassemblyOfOrdered(xs: seq<Json>)
    requires NodesBeforeEdges(xs)
    ensures OfKind(xs, false) + OfKind(xs, true) == xs
  {
    if xs != [] {
      var init, last := xs[..|xs| - 1], xs[|xs| - 1];
      assert xs == init + [last];
      if IsEdge(last) {
        assert NodesBeforeEdges(init) by {
          forall i, j | 0 <= i < j < |init| && IsEdge(init[i])
            ensures IsEdge(init[j])
          {
            assert init[i] == xs[i] && init[j] == xs[j];
          }
        }
        ReassemblyOfOrdered(init);
      } else {
        assert forall i :: 0 <= i < |xs| ==> !IsEdge(xs[i]);
        NoEdges(xs);
      }
    }
  }

  /** A graph whose nodes all precede its edges survives split and reassembly. */
  lemma OrderedGraphRoundTrips()
    ensures var node, edge := JObj([Field("id", JStr("1"))]),
                              JObj([Field("id", JStr("e1-2")), Field("source", JStr("1"))]);
            OfKind([node, edge], false) + OfKind([node, edge], true) == [node, edge]
  {
    var node, edge := JObj([Field("id", JStr("1"))]),
                      JObj([Field("id", JStr("e1-2")), Field("source", JStr("1"))]);
    assert IsEdge(edge) by {
      assert edge.fields[1].key == "source";
    }
    assert !IsEdge(node) by {
      assert node.fields[0].key != "source";
    }
    ReassemblyOfOrdered([node, edge]);
  }

  /** An edge listed before a node moves behind it. */
  lemma EdgeFirstIsReordered()
    ensures var node, edge := JObj([Field("id", JStr("2"))]),
                              JObj([Field("source", JStr("1")), Field("target", JStr("2"))]);
            OfKind([edge, node], false) + OfKind([edge, node], true) == [node, edge]
  {
    var node, edge := JObj([Field("id", JStr("2"))]),
                      JObj([Field("source", JStr("1")), Field("target", JStr("2"))]);
    assert IsEdge(edge) by {
      assert edge.fields[0].key == "source";
    }
    assert !IsEdge(node) by {
      assert node.fields[0].key != "source";
    }
    assert [edge, node][..1] == [edge];
    assert [edge][..0] == [];
  }
}
