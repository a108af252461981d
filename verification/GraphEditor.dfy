/** `GraphEditorStore`: the document, its history and the cached problem list, updated in place. */
module GraphEditor {
  import opened Options
  import opened GraphCheck
  import opened GraphHistory

  datatype Snapshot = Snapshot(nodes: seq<Node>, edges: seq<Edge>)

  class GraphEditorStore {
    var documentId: string
    var documentName: string
    var nodes: seq<Node>
    var edges: seq<Edge>
    var problems: seq<Problem>
    var undoStack: seq<Snapshot>
    var redoStack: seq<Snapshot>
    /** The cache is only filled by the first load, reset, edit, undo or redo. */
    ghost var checked: bool

    ghost function History(): Stacks<Snapshot>
      reads this
    {
      Stacks(undoStack, Snapshot(nodes, edges), redoStack)
    }

    ghost predicate Valid()
      reads this
    {
      && |undoStack| + |redoStack| <= UNDO_LIMIT
      && (checked ==> problems == Problems(nodes, edges))
      && (!checked ==> problems == [] && nodes == [] && edges == [] && undoStack == redoStack == [])
    }

    constructor ()
      ensures Valid() && !checked && History() == Fresh(Snapshot([], []))
    {
      documentId, documentName := "single-model-safe", "Single Model Safe";
      nodes, edges, problems := [], [], [];
      undoStack, redoStack := [], [];
      checked := false;
    }

    method Reset(nodes: seq<Node>, edges: seq<Edge>)
      requires Valid()
      modifies this
      ensures Valid() && checked && History() == Fresh(Snapshot(nodes, edges))
      ensures documentId == "editor-draft" && documentName == "Editor Draft"
    {
      Load("editor-draft", "Editor Draft", nodes, edges);
    }

    /** `apply(document:)` */
    method Load(id: string, name: string, nodes: seq<Node>, edges: seq<Edge>)
      requires Valid()
      modifies this
      ensures Valid() && checked && History() == Fresh(Snapshot(nodes, edges))
      ensures documentId == id && documentName == name
    {
      documentId, documentName := id, name;
      Show(Snapshot(nodes, edges));
      undoStack, redoStack := [], [];
      checked := true;
    }

    method SaveUndo()
      modifies this`undoStack
      ensures undoStack == GraphHistory.SaveUndo(old(undoStack), Snapshot(nodes, edges))
    {
      undoStack := undoStack + [Snapshot(nodes, edges)];
      if |undoStack| > UNDO_LIMIT {
        undoStack := undoStack[1..];
      }
    }

    method AddNode(node: Node)
      requires Valid()
      modifies this
      ensures Valid() && checked
      ensures History() == Step(old(History()), Edit(Snapshot(old(nodes) + [node], old(edges))))
      ensures documentId == old(documentId) && documentName == old(documentName)
    {
      SaveUndo();
      nodes := nodes + [node];
      redoStack := [];
      problems := CompileProblems(nodes, edges);
      checked := true;
    }

    method Connect(edge: Edge)
      requires Valid()
      modifies this
      ensures Valid() && checked
      ensures History() == Step(old(History()), Edit(Snapshot(old(nodes), old(edges) + [edge])))
      ensures documentId == old(documentId) && documentName == old(documentName)
    {
      SaveUndo();
      edges := edges + [edge];
      redoStack := [];
      problems := CompileProblems(nodes, edges);
      checked := true;
    }

    method Show(version: Snapshot)
      modifies this`nodes, this`edges, this`problems
      ensures Snapshot(nodes, edges) == version && problems == Problems(nodes, edges)
    {
      nodes, edges := version.nodes, version.edges;
      problems := CompileProblems(nodes, edges);
    }

    method Undo()
      requires Valid()
      modifies this
      ensures Valid() && History() == Step(old(History()), Op.Undo)
      ensures checked == old(checked) && documentId == old(documentId) && documentName == old(documentName)
    {
      if undoStack == [] {
        return;
      }
      var previous := undoStack[|undoStack| - 1];
      undoStack := undoStack[..|undoStack| - 1];
      redoStack := redoStack + [Snapshot(nodes, edges)];
      Show(previous);
    }

    method Redo()
      requires Valid()
      modifies this
      ensures Valid() && History() == Step(old(History()), Op.Redo)
      ensures checked == old(checked) && documentId == old(documentId) && documentName == old(documentName)
    {
      if redoStack == [] {
        return;
      }
      var next := redoStack[|redoStack| - 1];
      redoStack := redoStack[..|redoStack| - 1];
      undoStack := undoStack + [Snapshot(nodes, edges)];
      Show(next);
    }
  }

  /** The check as the editor runs it: one growing list over edges, nodes and the seal. */
  method CompileProblems(nodes: seq<Node>, edges: seq<Edge>) returns (problems: seq<Problem>)
    ensures problems == Problems(nodes, edges)
  {
    problems := CheckEdges(nodes, edges);
    problems := CheckNodes(nodes, problems);
    if !HasSeal(nodes) {
      problems := problems + [Problem("missing-final-seal", None, "FinalSeal node required")];
    }
  }

  method CheckEdges(nodes: seq<Node>, edges: seq<Edge>) returns (problems: seq<Problem>)
    ensures problems == AllEdgeProblems(nodes, edges)
  {
    problems := [];
    var i := 0;
    while i < |edges|
      invariant 0 <= i <= |edges| && problems == AllEdgeProblems(nodes, edges[..i])
    {
      assert edges[..i + 1][..i] == edges[..i];
      var edge := edges[i];
      i := i + 1;
      var source, target := Find(nodes, edge.fromNodeId), Find(nodes, edge.toNodeId);
      if source.None? || target.None? {
        problems := problems + [Problem("missing-" + edge.id, None, "Missing edge endpoint")];
        continue;
      }
      var out, input := source.value.outputType, target.value.inputType;
      if out.Some? && input.Some? && (out.value != input.value || edge.portType != input.value) {
        problems := problems + [Problem("type-" + edge.id, Some(target.value.id), "Typed port mismatch")];
      }
    }
    assert edges[..|edges|] == edges;
  }

  method CheckNodes(nodes: seq<Node>, found: seq<Problem>) returns (problems: seq<Problem>)
    ensures problems == found + AllNodeProblems(nodes)
  {
    problems := found;
    var i := 0;
    while i < |nodes|
      invariant 0 <= i <= |nodes| && problems == found + AllNodeProblems(nodes[..i])
    {
      assert nodes[..i + 1][..i] == nodes[..i];
      problems := CheckNode(nodes[i], problems);
      assert problems == found + (AllNodeProblems(nodes[..i]) + NodeProblems(nodes[i]));
      i := i + 1;
    }
    assert nodes[..|nodes|] == nodes;
  }

  method CheckNode(node: Node, found: seq<Problem>) returns (problems: seq<Problem>)
    ensures problems == found + NodeProblems(node)
  {
    problems := found;
    if node.kind !in SUPPORTED_KINDS {
      problems := problems + [Problem("kind-" + node.id, Some(node.id), "Unsupported graph node kind")];
    }
    if node.kind in SIDE_EFFECT_KINDS {
      problems := problems
                  + [Problem("approval-" + node.id, Some(node.id), "Side-effect node requires approval policy")];
    }
  }
}
