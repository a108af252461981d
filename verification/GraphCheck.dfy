/** What the graph editor's compile check means, and what it guarantees about the exported graph. */
module GraphCheck {
  import opened Options

  datatype Node = Node(id: string, kind: string, title: string, inputType: Option<string>, outputType: Option<string>)
  datatype Edge = Edge(id: string, fromNodeId: string, toNodeId: string, portType: string)
  datatype Problem = Problem(id: string, nodeId: Option<string>, message: string)

  // Both tables in alphabetical order.
  const SIDE_EFFECT_KINDS: set<string> := {
    "app_action", "apply_patch", "browser_action", "computer_action", "git_push", "pull_request", "run_command"
  }

  const SUPPORTED_KINDS: set<string> := {
    "app_action", "app_inspect", "apply_patch", "approval", "arbiter", "architecture_snapshot",
    "before_after_compare", "blocked", "branch", "breakpoint", "browser_action", "browser_observe", "cancelled",
    "candidate_pool", "code_graph_query", "computer_action", "computer_observe", "consensus", "context_pack",
    "critique", "debate", "decompose", "delay", "delegate", "fallback_router", "final_seal", "generate_patch",
    "git_commit", "git_diff", "git_push", "git_stage", "git_status", "git_worktree", "glossary_query",
    "goal_input", "image_edit", "image_generate", "image_variation", "image_voxel_anchor", "join_all",
    "join_any", "loop", "mcp_resource", "mcp_tool", "model_call", "pull_request", "queue", "quorum",
    "read_files", "reasoning_strategy", "red_team", "requirement_extractor", "requirement_gate", "role_router",
    "run_command", "run_tests", "screenshot_capture", "search_code", "security_scan", "skill",
    "socratic_review", "static_analysis", "subgraph", "switch", "synthesize", "tri_wiki_recall",
    "verifier_pool", "visual_review", "web_research", "worker_pool", "wrongness_recall"
  }

  const FINAL_SEAL := "final_seal"

  // ---- The check, as a list of problems -------------------------------------------------------------

  /** `nodes.first(where: { $0.id == id })` */
  function Find(nodes: seq<Node>, id: string): Option<Node> {
    if nodes == [] then None
    else if nodes[0].id == id then Some(nodes[0])
    else Find(nodes[1..], id)
  }

  function EdgeProblems(nodes: seq<Node>, edge: Edge): seq<Problem> {
    var source, target := Find(nodes, edge.fromNodeId), Find(nodes, edge.toNodeId);
    if source.None? || target.None? then
      [Problem("missing-" + edge.id, None, "Missing edge endpoint")]
    else
      var out, input := source.value.outputType, target.value.inputType;
      if out.Some? && input.Some? && (out.value != input.value || edge.portType != input.value) then
        [Problem("type-" + edge.id, Some(target.value.id), "Typed port mismatch")]
      else []
  }

  function NodeProblems(node: Node): seq<Problem> {
    (if node.kind !in SUPPORTED_KINDS
     then [Problem("kind-" + node.id, Some(node.id), "Unsupported graph node kind")] else [])
    + (if node.kind in SIDE_EFFECT_KINDS
       then [Problem("approval-" + node.id, Some(node.id), "Side-effect node requires approval policy")] else [])
  }

  function AllEdgeProblems(nodes: seq<Node>, edges: seq<Edge>): seq<Problem> {
    if edges == [] then []
    else AllEdgeProblems(nodes, edges[..|edges| - 1]) + EdgeProblems(nodes, edges[|edges| - 1])
  }

  function AllNodeProblems(nodes: seq<Node>): seq<Problem> {
    if nodes == [] then [] else AllNodeProblems(nodes[..|nodes| - 1]) + NodeProblems(nodes[|nodes| - 1])
  }

  predicate HasSeal(nodes: seq<Node>) {
    exists i :: 0 <= i < |nodes| && nodes[i].kind == FINAL_SEAL
  }

  function Problems(nodes: seq<Node>, edges: seq<Edge>): seq<Problem> {
    AllEdgeProblems(nodes, edges) + AllNodeProblems(nodes)
    + if HasSeal(nodes) then [] else [Problem("missing-final-seal", None, "FinalSeal node required")]
  }

  // ---- What an empty list means -----------------------------------------------------------------------

  predicate HasNode(nodes: seq<Node>, id: string) {
    exists i :: 0 <= i < |nodes| && nodes[i].id == id
  }

  /** `node` is the node an edge end named `id` refers to: the first one with that id. */
  predicate Denotes(nodes: seq<Node>, id: string, node: Node) {
    exists i :: 0 <= i < |nodes| && nodes[i] == node && node.id == id && forall j :: 0 <= j < i ==> nodes[j].id != id
  }

  ghost predicate EdgeOk(nodes: seq<Node>, edge: Edge) {
    && HasNode(nodes, edge.fromNodeId) && HasNode(nodes, edge.toNodeId)
    && forall a, b :: Denotes(nodes, edge.fromNodeId, a) && Denotes(nodes, edge.toNodeId, b) ==>
         a.outputType.Some? && b.inputType.Some? ==>
           a.outputType.value == b.inputType.value == edge.portType
  }

  predicate NodeOk(node: Node) {
    node.kind in SUPPORTED_KINDS && node.kind !in SIDE_EFFECT_KINDS
  }

  ghost predicate Sound(nodes: seq<Node>, edges: seq<Edge>) {
    && (forall e :: e in edges ==> EdgeOk(nodes, e))
    && (forall n :: n in nodes ==> NodeOk(n))
    && HasSeal(nodes)
  }

  lemma {:induction false} FindDenotes(nodes: seq<Node>, id: string)
    ensures Find(nodes, id).Some? <==> HasNode(nodes, id)
    ensures Find(nodes, id).Some? ==> Denotes(nodes, id, Find(nodes, id).value)
  {
    if nodes != [] {
      if nodes[0].id == id {
        assert Denotes(nodes, id, nodes[0]);
      } else {
        var rest := nodes[1..];
        FindDenotes(rest, id);
        if HasNode(nodes, id) {
          var i :| 0 <= i < |nodes| && nodes[i].id == id;
          assert rest[i - 1].id == id;
        }
        if Find(rest, id).Some? {
          var node := Find(rest, id).value;
          var i :| 0 <= i < |rest| && rest[i] == node && forall j :: 0 <= j < i ==> rest[j].id != id;
          assert nodes[i + 1] == node;
          forall j | 0 <= j < i + 1
            ensures nodes[j].id != id
          {
            assert j > 0 ==> nodes[j] == rest[j - 1];
          }
        }
      }
    }
  }

  lemma DenotesOne(nodes: seq<Node>, id: string, a: Node, b: Node)
    requires Denotes(nodes, id, a) && Denotes(nodes, id, b)
    ensures a == b
  {
  }

  lemma EdgeProblemsIff(nodes: seq<Node>, edge: Edge)
    ensures EdgeProblems(nodes, edge) == [] <==> EdgeOk(nodes, edge)
  {
    FindDenotes(nodes, edge.fromNodeId);
    FindDenotes(nodes, edge.toNodeId);
    var source, target := Find(nodes, edge.fromNodeId), Find(nodes, edge.toNodeId);
    if source.Some? && target.Some? {
      forall a, b | Denotes(nodes, edge.fromNodeId, a) && Denotes(nodes, edge.toNodeId, b)
        ensures a == source.value && b == target.value
      {
        DenotesOne(nodes, edge.fromNodeId, a, source.value);
        DenotesOne(nodes, edge.toNodeId, b, target.value);
      }
    }
  }

  lemma {:induction false} AllEdgeProblemsIff(nodes: seq<Node>, edges: seq<Edge>)
    ensures AllEdgeProblems(nodes, edges) == [] <==> forall e :: e in edges ==> EdgeOk(nodes, e)
  {
    if edges != [] {
      var before, last := edges[..|edges| - 1], edges[|edges| - 1];
      assert edges == before + [last];
      AllEdgeProblemsIff(nodes, before);
      EdgeProblemsIff(nodes, last);
      assert last in edges;
    }
  }

  lemma {:induction false} AllNodeProblemsIff(nodes: seq<Node>)
    ensures AllNodeProblems(nodes) == [] <==> forall n :: n in nodes ==> NodeOk(n)
  {
    if nodes != [] {
      var before, last := nodes[..|nodes| - 1], nodes[|nodes| - 1];
      assert nodes == before + [last];
      AllNodeProblemsIff(before);
      assert last in nodes;
    }
  }

  /** The check is silent exactly on sound graphs. */
  lemma NoProblemsIffSound(nodes: seq<Node>, edges: seq<Edge>)
    ensures Problems(nodes, edges) == [] <==> Sound(nodes, edges)
  {
    AllEdgeProblemsIff(nodes, edges);
    AllNodeProblemsIff(nodes);
  }
}
