/** What the compile check reports and what the export holds, node by node and edge by edge. */
module GraphContent {
  import opened GraphCheck
  import opened GraphExport
  import opened Lists
  import opened Options

  // ---- The reports of the check --------------------------------------------------------------------------

  /** Both ends of the edge say what type they carry, and the types or the edge's own do not agree. */
  predicate Mismatch(edge: Edge, source: Node, target: Node) {
    && source.outputType.Some? && target.inputType.Some?
    && !(source.outputType.value == target.inputType.value && edge.portType == target.inputType.value)
  }

  /** A missing end is reported without a node, a mismatch at the node the edge leads to. */
  ghost predicate ReportsEdge(nodes: seq<Node>, edge: Edge, found: seq<Problem>) {
    if !HasNode(nodes, edge.fromNodeId) || !HasNode(nodes, edge.toNodeId) then
      found == [Problem("missing-" + edge.id, None, "Missing edge endpoint")]
    else
      forall a, b :: Denotes(nodes, edge.fromNodeId, a) && Denotes(nodes, edge.toNodeId, b) ==>
        found == if Mismatch(edge, a, b) then [Problem("type-" + edge.id, Some(edge.toNodeId), "Typed port mismatch")]
                 else []
  }

  /** An unsupported kind comes before a side effect. */
  predicate ReportsNode(node: Node, found: seq<Problem>) {
    var unsupported := Problem("kind-" + node.id, Some(node.id), "Unsupported graph node kind");
    var effectful := Problem("approval-" + node.id, Some(node.id), "Side-effect node requires approval policy");
    match (node.kind in SUPPORTED_KINDS, node.kind in SIDE_EFFECT_KINDS)
    case (true, false) => found == []
    case (true, true) => found == [effectful]
    case (false, false) => found == [unsupported]
    case (false, true) => found == [unsupported, effectful]
  }

  /** A node with a side effect is of a supported kind, so it is reported for one thing only. */
  lemma SideEffectsAreSupported(node: Node, found: seq<Problem>)
    requires ReportsNode(node, found)
    ensures node.kind in SIDE_EFFECT_KINDS ==> node.kind in SUPPORTED_KINDS
    ensures |found| <= 1
  {
  }

  predicate ReportsSeal(nodes: seq<Node>, found: seq<Problem>) {
    if exists i :: 0 <= i < |nodes| && nodes[i].kind == "final_seal" then found == []
    else found == [Problem("missing-final-seal", None, "FinalSeal node required")]
  }

  lemma DenotedIsFirst(nodes: seq<Node>, id: string, node: Node)
    requires Denotes(nodes, id, node)
    ensures Find(nodes, id) == Some(node)
  {
    FindDenotes(nodes, id);
  }

  lemma EdgeIsReported(nodes: seq<Node>, edge: Edge)
    ensures ReportsEdge(nodes, edge, EdgeProblems(nodes, edge))
  {
    FindDenotes(nodes, edge.fromNodeId);
    FindDenotes(nodes, edge.toNodeId);
    forall a, b | Denotes(nodes, edge.fromNodeId, a) && Denotes(nodes, edge.toNodeId, b)
      ensures Find(nodes, edge.fromNodeId) == Some(a) && Find(nodes, edge.toNodeId) == Some(b)
    {
      DenotedIsFirst(nodes, edge.fromNodeId, a);
      DenotedIsFirst(nodes, edge.toNodeId, b);
    }
  }

  lemma {:induction false} EdgesAreReported(nodes: seq<Node>, edges: seq<Edge>) returns (parts: seq<seq<Problem>>)
    ensures Flat(parts) == AllEdgeProblems(nodes, edges) && |parts| == |edges|
    ensures forall i :: 0 <= i < |edges| ==> ReportsEdge(nodes, edges[i], parts[i])
  {
    parts := [];
    if edges != [] {
      var last := EdgeProblems(nodes, edges[|edges| - 1]);
      var before := EdgesAreReported(nodes, edges[..|edges| - 1]);
      EdgeIsReported(nodes, edges[|edges| - 1]);
      FlatSnoc(before, last);
      parts := before + [last];
    }
  }

  lemma {:induction false} NodesAreReported(nodes: seq<Node>) returns (parts: seq<seq<Problem>>)
    ensures Flat(parts) == AllNodeProblems(nodes) && |parts| == |nodes|
    ensures forall i :: 0 <= i < |nodes| ==> ReportsNode(nodes[i], parts[i])
  {
    parts := [];
    if nodes != [] {
      var last := NodeProblems(nodes[|nodes| - 1]);
      var before := NodesAreReported(nodes[..|nodes| - 1]);
      FlatSnoc(before, last);
      parts := before + [last];
    }
  }

  /** The list is the reports of the edges, then of the nodes, then of the seal, each in document order. */
  lemma ProblemsAreTheReports(nodes: seq<Node>, edges: seq<Edge>)
    returns (onEdges: seq<seq<Problem>>, onNodes: seq<seq<Problem>>, onSeal: seq<Problem>)
    ensures Problems(nodes, edges) == Flat(onEdges) + Flat(onNodes) + onSeal
    ensures |onEdges| == |edges| && forall i :: 0 <= i < |edges| ==> ReportsEdge(nodes, edges[i], onEdges[i])
    ensures |onNodes| == |nodes| && forall i :: 0 <= i < |nodes| ==> ReportsNode(nodes[i], onNodes[i])
    ensures ReportsSeal(nodes, onSeal)
  {
    onEdges := EdgesAreReported(nodes, edges);
    onNodes := NodesAreReported(nodes);
    onSeal := if HasSeal(nodes) then [] else [Problem("missing-final-seal", None, "FinalSeal node required")];
  }

  // ---- The export ----------------------------------------------------------------------------------------

  /** An edge keeps its id and its ends, and is a control edge or else a data edge. */
  predicate ExportsEdge(edge: Edge, exported: ExportedEdge) {
    && exported.id == edge.id && exported.fromNodeId == edge.fromNodeId && exported.toNodeId == edge.toNodeId
    && exported.kind == if edge.portType == "control" then "control" else "data"
  }

  /** A node keeps its id and kind under its title; the layout goes right in steps of 220 and up and down by 120. */
  predicate ExportsNode(node: Node, index: nat, exported: ExportedNode) {
    && exported.id == node.id && exported.kind == node.kind && exported.displayName == node.title
    && exported.x == 220 * index && exported.y == if index % 2 == 1 then 120 else 0
  }

  predicate NothingLeadsTo(edges: seq<Edge>, id: string) {
    forall j :: 0 <= j < |edges| ==> edges[j].toNodeId != id
  }

  /** The positions ascend, each with its id. */
  predicate Places(nodes: seq<Node>, positions: seq<nat>, ids: seq<string>) {
    && |positions| == |ids|
    && (forall k :: 0 <= k < |ids| ==> positions[k] < |nodes| && ids[k] == nodes[positions[k]].id)
    && (forall k, l :: 0 <= k < l < |ids| ==> positions[k] < positions[l])
  }

  /** These positions are those of the nodes nothing leads to, in order. */
  predicate AreEntries(nodes: seq<Node>, edges: seq<Edge>, positions: seq<nat>, ids: seq<string>) {
    && Places(nodes, positions, ids)
    && forall i :: 0 <= i < |nodes| ==> (i in positions <==> NothingLeadsTo(edges, nodes[i].id))
  }

  lemma PlacesSnoc(before: seq<Node>, last: Node, positions: seq<nat>, ids: seq<string>)
    requires Places(before, positions, ids)
    ensures Places(before + [last], positions, ids)
    ensures Places(before + [last], positions + [|before|], ids + [last.id])
    ensures |before| !in positions
  {
  }

  lemma {:induction false} EntriesAreInOrder(nodes: seq<Node>, edges: seq<Edge>) returns (positions: seq<nat>)
    ensures AreEntries(nodes, edges, positions, Entries(nodes, edges))
  {
    positions := [];
    if nodes != [] {
      var n := |nodes| - 1;
      var before, last := nodes[..n], nodes[n];
      assert nodes == before + [last];
      var earlier := EntriesAreInOrder(before, edges);
      PlacesSnoc(before, last, earlier, Entries(before, edges));
      assert HasIncoming(edges, last.id) <==> !NothingLeadsTo(edges, last.id);
      positions := if HasIncoming(edges, last.id) then earlier else earlier + [n];
      forall i | 0 <= i < |nodes|
        ensures i in positions <==> NothingLeadsTo(edges, nodes[i].id)
      {
        assert i < n ==> nodes[i] == before[i];
      }
    }
  }

  /** The entry nodes in document order; if there is none, the first node stands in. */
  ghost predicate ExportsEntries(nodes: seq<Node>, edges: seq<Edge>, ids: seq<string>) {
    exists positions, entries ::
      AreEntries(nodes, edges, positions, entries)
      && ids == if entries == [] && nodes != [] then [nodes[0].id] else entries
  }

  /** Every edge and every node is exported as it stands, in place. */
  lemma ExportHoldsTheDocument(nodes: seq<Node>, edges: seq<Edge>)
    requires Export(nodes, edges).Some?
    ensures var p := Export(nodes, edges).value;
            && |p.edges| == |edges| && (forall i :: 0 <= i < |edges| ==> ExportsEdge(edges[i], p.edges[i]))
            && (forall i :: 0 <= i < |nodes| ==>
                  nodes[i].id in p.nodes && ExportsNode(nodes[i], i, p.nodes[nodes[i].id]))
            && (forall id :: id in p.nodes ==> exists i :: 0 <= i < |nodes| && nodes[i].id == id)
            && ExportsEntries(nodes, edges, p.entryNodes)
  {
    NodeMapFillsIffUnique(nodes);
    forall i | 0 <= i < |nodes|
      ensures nodes[i].id in NodeMap(nodes).value && ExportsNode(nodes[i], i, NodeMap(nodes).value[nodes[i].id])
    {
      NodeMapEntry(nodes, i);
    }
    var positions := EntriesAreInOrder(nodes, edges);
  }
}
