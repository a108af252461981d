/** Tool calls, the policy that decides them, and what executing one call yields. */
module AgentGateway {
  import opened Options
  import opened WorkspacePaths
  import opened PatchContract
  import opened Text

  datatype Tool =
    | ListDirectory | ReadFileRange | SearchText
    | ProposePatch | DiffPatch
    | GitStatus | GitDiff | GitLog
    | CodeGraphQuerySymbol | CodeGraphReferences | ContextBuildPack
    | CommandRun | TestRunTargeted | McpInvoke | SkillInvoke
    | ArtifactRead | ArtifactWrite | ImageGenerate | ImageInspect

  /** `text` is the content of a proposed patch or the line of a diff patch. */
  datatype ToolCall = ToolCall(tool: Tool, path: string, text: string)

  function ToolName(tool: Tool): string {
    match tool
    case ListDirectory => "workspace.list_directory"
    case ReadFileRange => "workspace.read_file_range"
    case SearchText => "workspace.search_text"
    case ProposePatch => "workspace.propose_patch"
    case DiffPatch => "workspace.diff_patch"
    case GitStatus => "git.status"
    case GitDiff => "git.diff"
    case GitLog => "git.log"
    case CodeGraphQuerySymbol => "codegraph.query_symbol"
    case CodeGraphReferences => "codegraph.references"
    case ContextBuildPack => "context.build_pack"
    case CommandRun => "command.run"
    case TestRunTargeted => "test.run_targeted"
    case McpInvoke => "mcp.invoke"
    case SkillInvoke => "skill.invoke"
    case ArtifactRead => "artifact.read"
    case ArtifactWrite => "artifact.write"
    case ImageGenerate => "image.generate"
    case ImageInspect => "image.inspect"
  }

  predicate IsWrite(tool: Tool) {
    match tool
    case ProposePatch => true
    case DiffPatch => true
    case CommandRun => true
    case TestRunTargeted => true
    case McpInvoke => true
    case SkillInvoke => true
    case ArtifactWrite => true
    case ImageGenerate => true
    case _ => false
  }

  // ---- Policies -------------------------------------------------------------------------------------

  datatype Permission = ReadOnly | Allow | Ask | Deny
  datatype PolicyEntry = PolicyEntry(tool: string, permission: Permission)
  datatype ToolDescriptor = ToolDescriptor(name: string, permission: Permission, available: bool)

  type Policy = seq<PolicyEntry>

  /** The first entry for the tool; an unlisted tool is denied. */
  function PermissionFor(policy: Policy, tool: string): Permission {
    if policy == [] then Deny
    else if policy[0].tool == tool then policy[0].permission
    else PermissionFor(policy[1..], tool)
  }

  function AvailableProviderTools(registry: seq<ToolDescriptor>): seq<ToolDescriptor> {
    if registry == [] then []
    else (if registry[0].available && !registry[0].permission.Deny? then [registry[0]] else [])
         + AvailableProviderTools(registry[1..])
  }

  /** Everything that is not plainly read-only becomes denied. */
  function ReadOnlyPolicy(registry: seq<ToolDescriptor>): Policy {
    var tools := AvailableProviderTools(registry);
    seq(|tools|, i requires 0 <= i < |tools| =>
      PolicyEntry(tools[i].name, if tools[i].permission.ReadOnly? then ReadOnly else Deny))
  }

  datatype Decision = Pass | Block(reason: string)

  function Decide(policy: Policy, call: ToolCall): Decision {
    match PermissionFor(policy, ToolName(call.tool))
    case Deny => Block("blocked_tool_unlisted_or_denied")
    case Ask => Block("approval_required_for_tool")
    case ReadOnly => if IsWrite(call.tool) then Block("blocked_tool_read_only") else Pass
    case Allow => Pass
  }

  ghost predicate NeverAllows(policy: Policy) {
    forall e :: e in policy ==> e.permission.ReadOnly? || e.permission.Deny?
  }

  lemma {:induction false} NeverAllowsMeansReadOnly(policy: Policy, tool: string)
    requires NeverAllows(policy)
    ensures PermissionFor(policy, tool).ReadOnly? || PermissionFor(policy, tool).Deny?
  {
    if policy != [] {
      assert policy[0] in policy;
      NeverAllowsMeansReadOnly(policy[1..], tool);
    }
  }

  /** Under the read-only policy no write-class call passes, whatever the registry grants. */
  lemma ReadOnlyPolicyBlocksWrites(registry: seq<ToolDescriptor>, call: ToolCall)
    ensures Decide(ReadOnlyPolicy(registry), call).Pass? ==> !IsWrite(call.tool)
  {
    NeverAllowsMeansReadOnly(ReadOnlyPolicy(registry), ToolName(call.tool));
  }

  // ---- Executing one call -----------------------------------------------------------------------------

  datatype ToolResult =
    | FileContent(path: string, content: Option<string>)
    | ToolOutput(tool: string, output: string)
    | Wrote(path: string, applied: bool, reason: Option<Reason>)
    | Failed(tool: string, message: string)

  /** What the tools outside the patch path answer. */
  datatype Service =
    | Answer(result: ToolResult) | Artifact(assetId: string) | Inspection(summary: string) | Error(message: string)

  datatype Access = Granted(target: Target) | Denied(message: string)

  datatype Receipt =
    | Read(result: ToolResult)
    | ImageArtifact(assetId: string)
    | ImageInspection(summary: string)
    | PlannedWriteReceipt(write: PlannedWrite)

  datatype Execution = Ok(receipt: Receipt) | Err(message: string)

  /**
   Path authorisation, the engine's path guard, which files are not safe text, and all other tools,
   which may change the workspace themselves.
   */
  datatype Gateway = Gateway(
    policy: Policy,
    authorise: string -> Access,
    resolve: string -> Option<Target>,
    unsafeText: Target -> bool,
    serve: (nat, Files, ToolCall) -> (Service, Files))

  predicate PlansPatch(tool: Tool) { tool.ProposePatch? || tool.DiffPatch? }

  /** `tick` numbers the calls of a run, so the services may answer differently each time. */
  function Execute(g: Gateway, files: Files, tick: nat, call: ToolCall): (Execution, Files) {
    var decision := Decide(g.policy, call);
    if decision.Block? then (Err(decision.reason), files)
    else
      var access := g.authorise(call.path);
      if access.Denied? then (Err(access.message), files)
      else if PlansPatch(call.tool) then (ExecutePatch(g, files, access.target, call), files)
      else
        var (service, after) := g.serve(tick, files, call);
        (ServiceReceipt(service), after)
  }

  function ServiceReceipt(service: Service): Execution {
    match service
    case Answer(result) => Ok(Read(result))
    case Artifact(assetId) => Ok(ImageArtifact(assetId))
    case Inspection(summary) => Ok(ImageInspection(summary))
    case Error(message) => Err(message)
  }

  function ExecutePatch(g: Gateway, files: Files, target: Target, call: ToolCall): Execution {
    var current := Content(files, target);
    if current.Some? && g.unsafeText(target) then
      Err("blocked_existing_file_not_safe_text")
    else
      var before := current.GetOr("");
      if call.tool.ProposePatch? then
        Ok(PlannedWriteReceipt(PlannedWrite(
          call.path, g.resolve(call.path), before, call.text, if current.Some? then Modify else Create)))
      else
        Ok(PlannedWriteReceipt(PlannedWrite(
          call.path, g.resolve(call.path), before, WithFinalNewline(before) + call.text + "\n",
          if before == "" && current.None? then Create else Modify)))
  }

  /** The first entry of a policy for a tool. */
  ghost predicate FirstEntry(policy: Policy, tool: string, k: nat) {
    k < |policy| && policy[k].tool == tool && forall j :: 0 <= j < k ==> policy[j].tool != tool
  }

  lemma {:induction false} PermissionIsFirst(policy: Policy, tool: string)
    ensures forall k: nat :: FirstEntry(policy, tool, k) ==> PermissionFor(policy, tool) == policy[k].permission
    ensures (forall k :: 0 <= k < |policy| ==> policy[k].tool != tool) ==> PermissionFor(policy, tool) == Deny
  {
    if policy != [] && policy[0].tool != tool {
      PermissionIsFirst(policy[1..], tool);
      forall k: nat | FirstEntry(policy, tool, k)
        ensures PermissionFor(policy, tool) == policy[k].permission
      {
        assert forall j :: 0 <= j < k - 1 ==> policy[1..][j] == policy[j + 1];
        assert FirstEntry(policy[1..], tool, k - 1);
      }
    }
  }

  /** The entry lets the call run: it allows the tool, or the tool only reads and the entry allows reading. */
  predicate Grants(permission: Permission, tool: Tool) {
    permission == Allow || (permission == ReadOnly && !IsWrite(tool))
  }

  /** A call passes exactly if the first entry for its tool grants it; asking for approval has a reason of its own. */
  lemma DecisionIs(policy: Policy, call: ToolCall, k: nat)
    requires FirstEntry(policy, ToolName(call.tool), k)
    ensures Decide(policy, call).Pass? <==> Grants(policy[k].permission, call.tool)
    ensures policy[k].permission == Ask ==> Decide(policy, call) == Block("approval_required_for_tool")
    ensures policy[k].permission == Deny ==> Decide(policy, call) == Block("blocked_tool_unlisted_or_denied")
    ensures policy[k].permission == ReadOnly && IsWrite(call.tool) ==>
              Decide(policy, call) == Block("blocked_tool_read_only")
  {
    PermissionIsFirst(policy, ToolName(call.tool));
  }

  lemma UnlistedToolsAreDenied(policy: Policy, call: ToolCall)
    requires forall k :: 0 <= k < |policy| ==> policy[k].tool != ToolName(call.tool)
    ensures Decide(policy, call) == Block("blocked_tool_unlisted_or_denied")
  {
    PermissionIsFirst(policy, ToolName(call.tool));
  }

  lemma OnlyWritesArePlanned(g: Gateway, files: Files, tick: nat, call: ToolCall)
    ensures var execution := Execute(g, files, tick, call).0;
            execution.Ok? && execution.receipt.PlannedWriteReceipt? ==>
              IsWrite(call.tool) && Decide(g.policy, call).Pass?
  {
  }

  /** Tools that are not of the write class leave the workspace alone. */
  ghost predicate ReadersAreQuiet(g: Gateway) {
    forall tick: nat, files: Files, call: ToolCall :: !IsWrite(call.tool) ==> g.serve(tick, files, call).1 == files
  }

  /** A call changes the workspace only if it is of the write class and the policy lets it through. */
  lemma OnlyPassedWritesChange(g: Gateway, files: Files, tick: nat, call: ToolCall)
    requires ReadersAreQuiet(g)
    ensures Execute(g, files, tick, call).1 != files ==> IsWrite(call.tool) && Decide(g.policy, call).Pass?
  {
  }
}
