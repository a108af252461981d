/** The exported pipeline graph, and what the compile check lets a consumer rely on. */
module GraphExport {
  import opened Options
  import opened GraphCheck

  datatype ExportedNode = ExportedNode(id: string, kind: string, displayName: string, x: int, y: int)
  datatype ExportedEdge = ExportedEdge(id: string, fromNodeId: string, toNodeId: string, kind: string)
  datatype Pipeline = Pipeline(entryNodes: seq<string>, nodes: map<string, ExportedNode>, edges: seq<ExportedEdge>)

  predicate HasIncoming(edges: seq<Edge>, id: string) {
    exists i :: 0 <= i < |edges| && edges[i].toNodeId == id
  }

  /** Ids of the nodes nothing points to, in node order. */
  function Entries(nodes: seq<Node>, edges: seq<Edge>): (ids: seq<string>)
    ensures forall id :: id in ids <==> HasNode(nodes, id) && !HasIncoming(edges, id)
  {
    if nodes == [] then []
    else
      var before, last := nodes[..|nodes| - 1], nodes[|nodes| - 1];
      assert nodes == before + [last];
      assert forall id :: HasNode(nodes, id) <==> HasNode(before, id) || last.id == id by {
        HasNodeSnoc(before, last);
      }
      Entries(before, edges) + if HasIncoming(edges, last.id) then [] else [last.id]
  }

  lemma HasNodeSnoc(before: seq<Node>, last: Node)
    ensures forall id :: HasNode(before + [last], id) <==> HasNode(before, id) || last.id == id
  {
    var nodes := before + [last];
    forall id
      ensures HasNode(nodes, id) <==> HasNode(before, id) || last.id == id
    {
      if HasNode(before, id) {
        var i :| 0 <= i < |before| && before[i].id == id;
        assert nodes[i].id == id;
      }
      assert nodes[|before|].id == last.id;
    }
  }

  function ExportNode(node: Node, index: nat): ExportedNode {
    ExportedNode(node.id, node.kind, node.title, index * 220, (index % 2) * 120)
  }

  function ExportEdge(edge: Edge): ExportedEdge {
    ExportedEdge(edge.id, edge.fromNodeId, edge.toNodeId, if edge.portType == "control" then "control" else "data")
  }

  predicate UniqueIds(nodes: seq<Node>) {
    forall i, j :: 0 <= i < j < |nodes| ==> nodes[i].id != nodes[j].id
  }

  /** `Dictionary(uniqueKeysWithValues:)` over the enumerated nodes; `None` is its trap on a key already present. */
  function NodeMap(nodes: seq<Node>): Option<map<string, ExportedNode>> {
    if nodes == [] then Some(map[])
    else
      var last := nodes[|nodes| - 1];
      match NodeMap(nodes[..|nodes| - 1])
      case None => None
      case Some(earlier) =>
        if last.id in earlier then None else Some(earlier[last.id := ExportNode(last, |nodes| - 1)])
  }

  lemma UniqueIdsSnoc(before: seq<Node>, last: Node)
    ensures UniqueIds(before + [last]) <==> UniqueIds(before) && !HasNode(before, last.id)
  {
    var nodes := before + [last];
    assert forall i :: 0 <= i < |before| ==> nodes[i] == before[i];
    if HasNode(before, last.id) {
      var i :| 0 <= i < |before| && before[i].id == last.id;
      assert nodes[i].id == nodes[|before|].id;
    }
  }

  /** Filling the map traps exactly when two nodes share an id; otherwise it has one entry per id. */
  lemma {:induction false} NodeMapFillsIffUnique(nodes: seq<Node>)
    ensures NodeMap(nodes).Some? <==> UniqueIds(nodes)
    ensures NodeMap(nodes).Some? ==> forall id :: id in NodeMap(nodes).value <==> HasNode(nodes, id)
  {
    if nodes != [] {
      var before, last := nodes[..|nodes| - 1], nodes[|nodes| - 1];
      assert nodes == before + [last];
      NodeMapFillsIffUnique(before);
      HasNodeSnoc(before, last);
      UniqueIdsSnoc(before, last);
    }
  }

  /** With unique ids every node keeps its own entry. */
  lemma {:induction false} NodeMapEntry(nodes: seq<Node>, i: nat)
    requires UniqueIds(nodes) && i < |nodes|
    ensures NodeMap(nodes).Some? && nodes[i].id in NodeMap(nodes).value
    ensures NodeMap(nodes).value[nodes[i].id] == ExportNode(nodes[i], i)
  {
    NodeMapFillsIffUnique(nodes);
    if i < |nodes| - 1 {
      NodeMapEntry(nodes[..|nodes| - 1], i);
    }
  }

  /** `currentPipelineGraph`; `None` is the trap of the node map. */
  function Export(nodes: seq<Node>, edges: seq<Edge>): Option<Pipeline> {
    match NodeMap(nodes)
    case None => None
    case Some(nodeMap) =>
      var entries := Entries(nodes, edges);
      Some(Pipeline(
        if entries == [] && nodes != [] then [nodes[0].id] else entries,
        nodeMap,
        seq(|edges|, i requires 0 <= i < |edges| => ExportEdge(edges[i]))))
  }

  // ---- Paths ------------------------------------------------------------------------------------------

  predicate Linked(edges: seq<ExportedEdge>, a: string, b: string) {
    exists i :: 0 <= i < |edges| && edges[i].fromNodeId == a && edges[i].toNodeId == b
  }

  predicate IsPath(edges: seq<ExportedEdge>, path: seq<string>) {
    path != [] && forall i :: 0 <= i < |path| - 1 ==> Linked(edges, path[i], path[i + 1])
  }

  ghost predicate Acyclic(edges: seq<ExportedEdge>) {
    forall path :: IsPath(edges, path) && |path| >= 2 ==> path[0] != path[|path| - 1]
  }

  ghost predicate Reachable(p: Pipeline, id: string) {
    exists path :: IsPath(p.edges, path) && path[0] in p.entryNodes && path[|path| - 1] == id
  }

  predicate ClosedOverNodes(p: Pipeline) {
    forall i :: 0 <= i < |p.edges| ==> p.edges[i].fromNodeId in p.nodes && p.edges[i].toNodeId in p.nodes
  }

  /** A path longer than the number of nodes repeats one of them, and so contains a cycle. */
  lemma LongPathHasCycle(p: Pipeline, path: seq<string>)
    requires IsPath(p.edges, path) && |path| > |p.nodes|
    requires forall i :: 0 <= i < |path| ==> path[i] in p.nodes
    ensures !Acyclic(p.edges)
  {
    var i, j := Repetition(path, p.nodes.Keys);
    var loop := path[i..j + 1];
    assert IsPath(p.edges, loop) by {
      forall k | 0 <= k < |loop| - 1
        ensures Linked(p.edges, loop[k], loop[k + 1])
      {
        assert Linked(p.edges, path[i + k], path[i + k + 1]);
      }
    }
  }

  /** The pigeonhole principle. */
  lemma {:induction false} Repetition(s: seq<string>, universe: set<string>) returns (i: nat, j: nat)
    requires |s| > |universe| && forall k :: 0 <= k < |s| ==> s[k] in universe
    ensures i < j < |s| && s[i] == s[j]
    decreases |s|
  {
    var last := s[|s| - 1];
    if k :| 0 <= k < |s| - 1 && s[k] == last {
      return k, |s| - 1;
    }
    i, j := Repetition(s[..|s| - 1], universe - {last});
  }

  /** Walking backwards from a node either meets an entry or can go on for another step. */
  lemma {:induction false} WalkBack(p: Pipeline, id: string, steps: nat) returns (path: seq<string>)
    requires ClosedOverNodes(p) && id in p.nodes
    requires forall n :: n in p.nodes && n !in p.entryNodes ==> exists a :: Linked(p.edges, a, n)
    ensures IsPath(p.edges, path) && path[|path| - 1] == id
    ensures forall i :: 0 <= i < |path| ==> path[i] in p.nodes
    ensures path[0] in p.entryNodes || |path| > steps
  {
    if steps == 0 {
      return [id];
    }
    path := WalkBack(p, id, steps - 1);
    if path[0] !in p.entryNodes {
      var a :| Linked(p.edges, a, path[0]);
      var i :| 0 <= i < |p.edges| && p.edges[i].fromNodeId == a && p.edges[i].toNodeId == path[0];
      var longer := [a] + path;
      forall k | 0 <= k < |longer| - 1
        ensures Linked(p.edges, longer[k], longer[k + 1])
      {
        assert k > 0 ==> Linked(p.edges, path[k - 1], path[k]);
      }
      path := longer;
    }
  }

  // ---- The guarantees -------------------------------------------------------------------------------

  lemma ExportedLinks(nodes: seq<Node>, edges: seq<Edge>, id: string)
    requires Export(nodes, edges).Some? && HasIncoming(edges, id)
    ensures exists a :: Linked(Export(nodes, edges).value.edges, a, id)
  {
    var i :| 0 <= i < |edges| && edges[i].toNodeId == id;
    var exported := Export(nodes, edges).value.edges;
    assert exported[i] == ExportEdge(edges[i]);
    assert Linked(exported, edges[i].fromNodeId, id);
  }

  /** The node map holds exactly the document's nodes, and a silent check closes the edges over it. */
  lemma CheckedExportIsClosed(nodes: seq<Node>, edges: seq<Edge>)
    requires Problems(nodes, edges) == [] && UniqueIds(nodes)
    ensures Export(nodes, edges).Some?
    ensures forall id :: id in Export(nodes, edges).value.nodes <==> HasNode(nodes, id)
    ensures ClosedOverNodes(Export(nodes, edges).value)
  {
    NodeMapFillsIffUnique(nodes);
    NoProblemsIffSound(nodes, edges);
    var p := Export(nodes, edges).value;
    forall i | 0 <= i < |p.edges|
      ensures p.edges[i].fromNodeId in p.nodes && p.edges[i].toNodeId in p.nodes
    {
      assert EdgeOk(nodes, edges[i]);
    }
  }

  lemma OtherNodesAreLinked(nodes: seq<Node>, edges: seq<Edge>)
    requires Export(nodes, edges).Some?
    ensures var p := Export(nodes, edges).value;
            forall n :: n in p.nodes && n !in p.entryNodes ==> exists a :: Linked(p.edges, a, n)
  {
    var p := Export(nodes, edges).value;
    NodeMapFillsIffUnique(nodes);
    forall n | n in p.nodes && n !in p.entryNodes
      ensures exists a :: Linked(p.edges, a, n)
    {
      ExportedLinks(nodes, edges, n);
    }
  }

  /** In a problem-free acyclic document every exported node can be reached from the entry nodes. */
  lemma CheckedExportIsReachable(nodes: seq<Node>, edges: seq<Edge>, id: string)
    requires Problems(nodes, edges) == [] && Export(nodes, edges).Some?
    requires Acyclic(Export(nodes, edges).value.edges)
    requires id in Export(nodes, edges).value.nodes
    ensures Reachable(Export(nodes, edges).value, id)
  {
    NodeMapFillsIffUnique(nodes);
    CheckedExportIsClosed(nodes, edges);
    OtherNodesAreLinked(nodes, edges);
    AcyclicIsReachable(Export(nodes, edges).value, id);
  }

  lemma AcyclicIsReachable(p: Pipeline, id: string)
    requires ClosedOverNodes(p) && id in p.nodes && Acyclic(p.edges)
    requires forall n :: n in p.nodes && n !in p.entryNodes ==> exists a :: Linked(p.edges, a, n)
    ensures Reachable(p, id)
  {
    var path := WalkBack(p, id, |p.nodes|);
    if path[0] !in p.entryNodes {
      LongPathHasCycle(p, path);
    }
  }

  // ---- Reachability, with cycles or without ---------------------------------------------------------------

  /** No edge leads into the set from outside. */
  ghost predicate NothingLeadsIn(p: Pipeline, ids: set<string>) {
    forall a, b :: Linked(p.edges, a, b) && b in ids ==> a in ids
  }

  /** Whatever set of nodes no edge leads into, the pipeline can enter it. */
  ghost predicate EveryIslandHasAnEntry(p: Pipeline) {
    forall ids: set<string> :: NothingLeadsIn(p, ids) && ids != {} && ids <= p.nodes.Keys ==>
      exists id :: id in ids && id in p.entryNodes
  }

  /** A path that ends in such a set started there. */
  lemma {:induction false} PathStaysIn(p: Pipeline, path: seq<string>, ids: set<string>)
    requires IsPath(p.edges, path) && NothingLeadsIn(p, ids) && path[|path| - 1] in ids
    ensures path[0] in ids
  {
    if |path| > 1 {
      var init := path[..|path| - 1];
      assert Linked(p.edges, path[|path| - 2], path[|path| - 1]);
      assert forall i :: 0 <= i < |init| - 1 ==> Linked(p.edges, path[i], path[i + 1]);
      PathStaysIn(p, init, ids);
    }
  }

  lemma ReachableGrows(p: Pipeline, a: string, b: string)
    requires Reachable(p, a) && Linked(p.edges, a, b)
    ensures Reachable(p, b)
  {
    var path :| IsPath(p.edges, path) && path[0] in p.entryNodes && path[|path| - 1] == a;
    var longer := path + [b];
    forall i | 0 <= i < |longer| - 1
      ensures Linked(p.edges, longer[i], longer[i + 1])
    {
      assert i < |path| - 1 ==> Linked(p.edges, path[i], path[i + 1]);
    }
    assert IsPath(p.edges, longer) && longer[0] == path[0];
  }

  lemma EntryIsReachable(p: Pipeline, id: string)
    requires id in p.entryNodes
    ensures Reachable(p, id)
  {
    assert IsPath(p.edges, [id]);
  }

  lemma StrandedNodesAreAnIsland(p: Pipeline) returns (stranded: set<string>)
    requires ClosedOverNodes(p)
    ensures stranded <= p.nodes.Keys && NothingLeadsIn(p, stranded)
    ensures forall id :: id in stranded <==> id in p.nodes && !Reachable(p, id)
  {
    stranded := set id | id in p.nodes && !Reachable(p, id);
    forall a, b | Linked(p.edges, a, b) && b in stranded
      ensures a in stranded
    {
      if Reachable(p, a) {
        ReachableGrows(p, a, b);
      }
    }
  }

  /** Exactly when every node can be reached, whatever cycles there are. */
  lemma AllReachableIff(p: Pipeline)
    requires ClosedOverNodes(p)
    ensures (forall id :: id in p.nodes ==> Reachable(p, id)) <==> EveryIslandHasAnEntry(p)
  {
    var stranded := StrandedNodesAreAnIsland(p);
    if EveryIslandHasAnEntry(p) && stranded != {} {
      var entry :| entry in stranded && entry in p.entryNodes;
      EntryIsReachable(p, entry);
    }
    if stranded == {} {
      forall ids: set<string> | NothingLeadsIn(p, ids) && ids != {} && ids <= p.nodes.Keys
        ensures exists id :: id in ids && id in p.entryNodes
      {
        var id :| id in ids;
        assert id !in stranded;
        var path :| IsPath(p.edges, path) && path[0] in p.entryNodes && path[|path| - 1] == id;
        PathStaysIn(p, path, ids);
      }
    }
  }

  /** So every node of a problem-free export can be reached exactly when its islands have entries. */
  lemma CheckedReachabilityIff(nodes: seq<Node>, edges: seq<Edge>)
    requires Problems(nodes, edges) == [] && Export(nodes, edges).Some?
    ensures var p := Export(nodes, edges).value;
            (forall id :: id in p.nodes ==> Reachable(p, id)) <==> EveryIslandHasAnEntry(p)
  {
    NodeMapFillsIffUnique(nodes);
    CheckedExportIsClosed(nodes, edges);
    AllReachableIff(Export(nodes, edges).value);
  }

  lemma AllLinkedMeansCycle(p: Pipeline, start: string)
    requires ClosedOverNodes(p) && start in p.nodes && p.entryNodes == []
    requires forall n :: n in p.nodes ==> exists a :: Linked(p.edges, a, n)
    ensures !Acyclic(p.edges)
  {
    var path := WalkBack(p, start, |p.nodes|);
    LongPathHasCycle(p, path);
  }

  lemma CheckedIsNotEmpty(nodes: seq<Node>, edges: seq<Edge>)
    requires Problems(nodes, edges) == []
    ensures nodes != []
  {
    NoProblemsIffSound(nodes, edges);
  }

  lemma NoEntriesMeansCycle(nodes: seq<Node>, edges: seq<Edge>)
    requires Problems(nodes, edges) == [] && Export(nodes, edges).Some? && Entries(nodes, edges) == []
    ensures !Acyclic(Export(nodes, edges).value.edges)
  {
    var p := Export(nodes, edges).value.(entryNodes := []);
    NodeMapFillsIffUnique(nodes);
    CheckedExportIsClosed(nodes, edges);
    CheckedIsNotEmpty(nodes, edges);
    forall n | n in p.nodes
      ensures exists a :: Linked(p.edges, a, n)
    {
      assert n !in Entries(nodes, edges);
      ExportedLinks(nodes, edges, n);
    }
    AllLinkedMeansCycle(p, nodes[0].id);
  }

  /** Entry nodes are genuine: in an acyclic checked document no edge leads into one. */
  lemma EntriesHaveNoIncoming(nodes: seq<Node>, edges: seq<Edge>, id: string)
    requires Problems(nodes, edges) == [] && Export(nodes, edges).Some?
    requires Acyclic(Export(nodes, edges).value.edges)
    ensures id in Export(nodes, edges).value.entryNodes <==> HasNode(nodes, id) && !HasIncoming(edges, id)
  {
    if Entries(nodes, edges) == [] {
      NoEntriesMeansCycle(nodes, edges);
    }
  }

  /** The check itself does not look at ids: filling the node map traps exactly on duplicates, silent check or not. */
  lemma ExportTrapsIffDuplicateIds(nodes: seq<Node>, edges: seq<Edge>)
    ensures Export(nodes, edges).None? <==> exists i, j :: 0 <= i < j < |nodes| && nodes[i].id == nodes[j].id
  {
    NodeMapFillsIffUnique(nodes);
  }

  lemma SilentCheckMayTrap()
    ensures var seal := Node("seal", FINAL_SEAL, "Seal", None, None);
            Problems([seal, seal], []) == [] && Export([seal, seal], []).None?
  {
    var seal := Node("seal", FINAL_SEAL, "Seal", None, None);
    assert HasSeal([seal, seal]) by { assert [seal, seal][0].kind == FINAL_SEAL; }
    SealNodeIsOk(seal);
    NoProblemsIffSound([seal, seal], []);
    assert [seal, seal][0].id == [seal, seal][1].id;
    ExportTrapsIffDuplicateIds([seal, seal], []);
  }

  /** The check does not look at cycles: beside a seal, a node that only feeds itself passes and is never reached. */
  lemma SilentCheckMayStrand(id: string)
    requires id != "seal"
    ensures var seal, loop := Node("seal", FINAL_SEAL, "Seal", None, None), Node(id, FINAL_SEAL, "Loop", None, None);
            var nodes, edges := [seal, loop], [Edge("e", id, id, "data")];
            && Problems(nodes, edges) == [] && Export(nodes, edges).Some?
            && id in Export(nodes, edges).value.nodes && !Reachable(Export(nodes, edges).value, id)
  {
    var seal, loop := Node("seal", FINAL_SEAL, "Seal", None, None), Node(id, FINAL_SEAL, "Loop", None, None);
    var nodes, edges := [seal, loop], [Edge("e", id, id, "data")];
    SelfLoopIsSound(seal, loop, edges[0]);
    NoProblemsIffSound(nodes, edges);
    NodeMapFillsIffUnique(nodes);
    LoopIsAnIsland(nodes, edges, id);
  }

  lemma LoopIsAnIsland(nodes: seq<Node>, edges: seq<Edge>, id: string)
    requires Export(nodes, edges).Some? && Entries(nodes, edges) != []
    requires |edges| == 1 && edges[0].fromNodeId == id && edges[0].toNodeId == id
    ensures !Reachable(Export(nodes, edges).value, id)
  {
    var p := Export(nodes, edges).value;
    assert HasIncoming(edges, id);
    assert id !in p.entryNodes;
    forall path | IsPath(p.edges, path) && path[0] in p.entryNodes
      ensures path[|path| - 1] != id
    {
      if path[|path| - 1] == id {
        PathStaysIn(p, path, {id});
      }
    }
  }

  lemma SelfLoopIsSound(seal: Node, loop: Node, edge: Edge)
    requires seal.kind == FINAL_SEAL && loop.kind == FINAL_SEAL && seal.id != loop.id
    requires seal.outputType.None? && loop.outputType.None?
    requires edge.fromNodeId == loop.id && edge.toNodeId == loop.id
    ensures Sound([seal, loop], [edge]) && UniqueIds([seal, loop]) && HasNode([seal, loop], loop.id)
    ensures Entries([seal, loop], [edge]) != []
  {
    var nodes := [seal, loop];
    assert nodes[0] == seal && nodes[1] == loop;
    assert HasNode(nodes, seal.id) && !HasIncoming([edge], seal.id);
    assert seal.id in Entries(nodes, [edge]);
    SealNodeIsOk(seal);
    SealNodeIsOk(loop);
    assert HasNode(nodes, loop.id) && HasSeal(nodes);
    assert EdgeOk(nodes, edge);
  }

  lemma SealNodeIsOk(node: Node)
    requires node.kind == FINAL_SEAL
    ensures NodeOk(node)
  {
    var kind := FINAL_SEAL;
    assert kind[0] == 'f';
  }
}
