/** Partly bound turns and the way a higher layer folds into a lower one: scalars and lists replace
    when bound, groups merge by field, and an optional provider group merges with what is there or
    is taken over whole. */
module Partial {
  import opened Collections

  datatype ProviderId = Claude | Codex

  datatype ResumeBinding = ResumeBinding(provider: ProviderId, value: string)

  datatype FilesystemChoice = ReadOnly | WorkspaceWrite | FullAccess

  datatype EffortChoice = Low | Medium | High

  datatype PermissionModeChoice = Standard | AcceptEdits | DontAsk | Plan | Auto

  datatype AmbientContextChoice = Inherit | HermeticProject | HermeticFull | Safe | Bare

  datatype PartialModel = PartialModel(name: Option<string>)

  datatype PartialContext = PartialContext(cwd: Option<string>, additionalDirectories: Option<seq<string>>,
                                           resume: Option<ResumeBinding>)

  datatype PartialPermissions = PartialPermissions(filesystem: Option<FilesystemChoice>)

  datatype PartialClaudeOptions = PartialClaudeOptions(
    systemPrompt: Option<string>, appendSystemPrompt: Option<string>, fallbackModel: Option<string>,
    effort: Option<EffortChoice>, allowedTools: Option<seq<string>>, disallowedTools: Option<seq<string>>,
    maxTurns: Option<nat>, maxBudgetUsd: Option<real>, permissionMode: Option<PermissionModeChoice>,
    jsonSchema: Option<string>, strictMcpConfig: Option<bool>, ambientContext: Option<AmbientContextChoice>)

  datatype PartialCodexOptions = PartialCodexOptions(systemPrompt: Option<string>, outputSchema: Option<string>,
                                                     ephemeral: Option<bool>)

  datatype PartialProviderOptions = PartialProviderOptions(claude: Option<PartialClaudeOptions>,
                                                           codex: Option<PartialCodexOptions>)

  datatype PartialTurn = PartialTurn(provider: Option<ProviderId>, prompt: Option<string>, model: PartialModel,
                                     context: PartialContext, permissions: PartialPermissions,
                                     providerOptions: PartialProviderOptions)

  const NoContext: PartialContext := PartialContext(None, None, None)
  const NoOptions: PartialProviderOptions := PartialProviderOptions(None, None)

  /** The turn that binds nothing. */
  const Unbound: PartialTurn :=
    PartialTurn(None, None, PartialModel(None), NoContext, PartialPermissions(None), NoOptions)

  // ---------------------------------------------------------------------------------------------
  // Folding a layer in
  // ---------------------------------------------------------------------------------------------

  function OverModel(lower: PartialModel, layer: PartialModel): PartialModel {
    PartialModel(OrElse(layer.name, lower.name))
  }

  function OverContext(lower: PartialContext, layer: PartialContext): PartialContext {
    PartialContext(OrElse(layer.cwd, lower.cwd), OrElse(layer.additionalDirectories, lower.additionalDirectories),
                   OrElse(layer.resume, lower.resume))
  }

  function OverPermissions(lower: PartialPermissions, layer: PartialPermissions): PartialPermissions {
    PartialPermissions(OrElse(layer.filesystem, lower.filesystem))
  }

  function OverClaude(lower: PartialClaudeOptions, layer: PartialClaudeOptions): PartialClaudeOptions {
    PartialClaudeOptions(
      OrElse(layer.systemPrompt, lower.systemPrompt), OrElse(layer.appendSystemPrompt, lower.appendSystemPrompt),
      OrElse(layer.fallbackModel, lower.fallbackModel), OrElse(layer.effort, lower.effort),
      OrElse(layer.allowedTools, lower.allowedTools), OrElse(layer.disallowedTools, lower.disallowedTools),
      OrElse(layer.maxTurns, lower.maxTurns), OrElse(layer.maxBudgetUsd, lower.maxBudgetUsd),
      OrElse(layer.permissionMode, lower.permissionMode), OrElse(layer.jsonSchema, lower.jsonSchema),
      OrElse(layer.strictMcpConfig, lower.strictMcpConfig), OrElse(layer.ambientContext, lower.ambientContext))
  }

  function OverCodex(lower: PartialCodexOptions, layer: PartialCodexOptions): PartialCodexOptions {
    PartialCodexOptions(OrElse(layer.systemPrompt, lower.systemPrompt), OrElse(layer.outputSchema, lower.outputSchema),
                        OrElse(layer.ephemeral, lower.ephemeral))
  }

  function OverOptions(lower: PartialProviderOptions, layer: PartialProviderOptions): PartialProviderOptions {
    PartialProviderOptions(
      match (lower.claude, layer.claude) {
        case (Some(current), Some(incoming)) => Some(OverClaude(current, incoming))
        case (None, Some(incoming)) => Some(incoming)
        case (_, None) => lower.claude
      },
      match (lower.codex, layer.codex) {
        case (Some(current), Some(incoming)) => Some(OverCodex(current, incoming))
        case (None, Some(incoming)) => Some(incoming)
        case (_, None) => lower.codex
      })
  }

  /** What `lower` becomes when the higher-precedence `layer` folds into it. */
  function Over(lower: PartialTurn, layer: PartialTurn): PartialTurn {
    PartialTurn(OrElse(layer.provider, lower.provider), OrElse(layer.prompt, lower.prompt),
                OverModel(lower.model, layer.model), OverContext(lower.context, layer.context),
                OverPermissions(lower.permissions, layer.permissions),
                OverOptions(lower.providerOptions, layer.providerOptions))
  }

  // ---------------------------------------------------------------------------------------------
  // Paths
  // ---------------------------------------------------------------------------------------------

  datatype ClaudePath =
    | SystemPrompt | AppendSystemPrompt | FallbackModel | Effort | AllowedTools | DisallowedTools | MaxTurns
    | MaxBudgetUsd | PermissionMode | JsonSchema | StrictMcpConfig | AmbientContext

  datatype CodexPath = Instructions | OutputSchema | Ephemeral

  /** Every place a layer can bind, a provider group's own presence among them. */
  datatype Path =
    | Provider | Prompt | ModelName | Cwd | AdditionalDirectories | Resume | Filesystem
    | ClaudeGroup | CodexGroup
    | InClaude(claude: ClaudePath)
    | InCodex(codex: CodexPath)

  datatype Value =
    | Present
    | OfProvider(provider: ProviderId)
    | OfText(text: string)
    | OfList(list: seq<string>)
    | OfResume(resume: ResumeBinding)
    | OfFilesystem(filesystem: FilesystemChoice)
    | OfEffort(effort: EffortChoice)
    | OfCount(count: nat)
    | OfAmount(amount: real)
    | OfMode(mode: PermissionModeChoice)
    | OfFlag(flag: bool)
    | OfAmbient(ambient: AmbientContextChoice)

  function Text(o: Option<string>): Option<Value> { if o.Some? then Some(OfText(o.value)) else None }
  function List(o: Option<seq<string>>): Option<Value> { if o.Some? then Some(OfList(o.value)) else None }
  function Flag(o: Option<bool>): Option<Value> { if o.Some? then Some(OfFlag(o.value)) else None }

  function ClaudeBinding(options: PartialClaudeOptions, path: ClaudePath): Option<Value> {
    match path
    case SystemPrompt => Text(options.systemPrompt)
    case AppendSystemPrompt => Text(options.appendSystemPrompt)
    case FallbackModel => Text(options.fallbackModel)
    case Effort => if options.effort.Some? then Some(OfEffort(options.effort.value)) else None
    case AllowedTools => List(options.allowedTools)
    case DisallowedTools => List(options.disallowedTools)
    case MaxTurns => if options.maxTurns.Some? then Some(OfCount(options.maxTurns.value)) else None
    case MaxBudgetUsd => if options.maxBudgetUsd.Some? then Some(OfAmount(options.maxBudgetUsd.value)) else None
    case PermissionMode => if options.permissionMode.Some? then Some(OfMode(options.permissionMode.value)) else None
    case JsonSchema => Text(options.jsonSchema)
    case StrictMcpConfig => Flag(options.strictMcpConfig)
    case AmbientContext => if options.ambientContext.Some? then Some(OfAmbient(options.ambientContext.value)) else None
  }

  function CodexBinding(options: PartialCodexOptions, path: CodexPath): Option<Value> {
    match path
    case Instructions => Text(options.systemPrompt)
    case OutputSchema => Text(options.outputSchema)
    case Ephemeral => Flag(options.ephemeral)
  }

  /** What a turn binds at a path, if anything. */
  function Binding(turn: PartialTurn, path: Path): Option<Value> {
    match path
    case Provider => if turn.provider.Some? then Some(OfProvider(turn.provider.value)) else None
    case Prompt => Text(turn.prompt)
    case ModelName => Text(turn.model.name)
    case Cwd => Text(turn.context.cwd)
    case AdditionalDirectories => List(turn.context.additionalDirectories)
    case Resume => if turn.context.resume.Some? then Some(OfResume(turn.context.resume.value)) else None
    case Filesystem => if turn.permissions.filesystem.Some? then Some(OfFilesystem(turn.permissions.filesystem.value))
      else None
    case ClaudeGroup => if turn.providerOptions.claude.Some? then Some(Present) else None
    case CodexGroup => if turn.providerOptions.codex.Some? then Some(Present) else None
    case InClaude(claude) =>
      if turn.providerOptions.claude.Some? then ClaudeBinding(turn.providerOptions.claude.value, claude) else None
    case InCodex(codex) =>
      if turn.providerOptions.codex.Some? then CodexBinding(turn.providerOptions.codex.value, codex) else None
  }

  /** A turn is what it binds. */
  lemma EqualByPaths(a: PartialTurn, b: PartialTurn)
    requires forall path :: Binding(a, path) == Binding(b, path)
    ensures a == b
  {
    assert Binding(a, Provider) == Binding(b, Provider) && Binding(a, Prompt) == Binding(b, Prompt);
    assert Binding(a, ModelName) == Binding(b, ModelName) && Binding(a, Cwd) == Binding(b, Cwd);
    assert Binding(a, AdditionalDirectories) == Binding(b, AdditionalDirectories);
    assert Binding(a, Resume) == Binding(b, Resume) && Binding(a, Filesystem) == Binding(b, Filesystem);
    assert Binding(a, ClaudeGroup) == Binding(b, ClaudeGroup) && Binding(a, CodexGroup) == Binding(b, CodexGroup);
    if a.providerOptions.claude.Some? {
      forall path ensures ClaudeBinding(a.providerOptions.claude.value, path)
        == ClaudeBinding(b.providerOptions.claude.value, path) {
        assert Binding(a, InClaude(path)) == Binding(b, InClaude(path));
      }
      EqualClaude(a.providerOptions.claude.value, b.providerOptions.claude.value);
    }
    if a.providerOptions.codex.Some? {
      forall path ensures CodexBinding(a.providerOptions.codex.value, path)
        == CodexBinding(b.providerOptions.codex.value, path) {
        assert Binding(a, InCodex(path)) == Binding(b, InCodex(path));
      }
      EqualCodex(a.providerOptions.codex.value, b.providerOptions.codex.value);
    }
  }

  lemma EqualClaude(a: PartialClaudeOptions, b: PartialClaudeOptions)
    requires forall path :: ClaudeBinding(a, path) == ClaudeBinding(b, path)
    ensures a == b
  {
    assert ClaudeBinding(a, SystemPrompt) == ClaudeBinding(b, SystemPrompt);
    assert ClaudeBinding(a, AppendSystemPrompt) == ClaudeBinding(b, AppendSystemPrompt);
    assert ClaudeBinding(a, FallbackModel) == ClaudeBinding(b, FallbackModel)
      && ClaudeBinding(a, Effort) == ClaudeBinding(b, Effort);
    assert ClaudeBinding(a, AllowedTools) == ClaudeBinding(b, AllowedTools);
    assert ClaudeBinding(a, DisallowedTools) == ClaudeBinding(b, DisallowedTools);
    assert ClaudeBinding(a, MaxTurns) == ClaudeBinding(b, MaxTurns)
      && ClaudeBinding(a, MaxBudgetUsd) == ClaudeBinding(b, MaxBudgetUsd);
    assert ClaudeBinding(a, PermissionMode) == ClaudeBinding(b, PermissionMode);
    assert ClaudeBinding(a, JsonSchema) == ClaudeBinding(b, JsonSchema);
    assert ClaudeBinding(a, StrictMcpConfig) == ClaudeBinding(b, StrictMcpConfig);
    assert ClaudeBinding(a, AmbientContext) == ClaudeBinding(b, AmbientContext);
  }

  lemma EqualCodex(a: PartialCodexOptions, b: PartialCodexOptions)
    requires forall path :: CodexBinding(a, path) == CodexBinding(b, path)
    ensures a == b
  {
    assert CodexBinding(a, Instructions) == CodexBinding(b, Instructions);
    assert CodexBinding(a, OutputSchema) == CodexBinding(b, OutputSchema)
      && CodexBinding(a, Ephemeral) == CodexBinding(b, Ephemeral);
  }

  // ---------------------------------------------------------------------------------------------
  // The algebra
  // ---------------------------------------------------------------------------------------------

  /** At every path the layer wins where it binds and leaves alone where it does not. */
  lemma OverBinds(lower: PartialTurn, layer: PartialTurn, path: Path)
    ensures Binding(Over(lower, layer), path) == OrElse(Binding(layer, path), Binding(lower, path))
  {
  }

  /** Layers fold in any grouping. */
  lemma OverAssociates(a: PartialTurn, b: PartialTurn, c: PartialTurn)
    ensures Over(Over(a, b), c) == Over(a, Over(b, c))
  {
  }

  /** A layer that says nothing changes nothing, above or below. */
  lemma UnboundIsNeutral(turn: PartialTurn)
    ensures Over(Unbound, turn) == turn == Over(turn, Unbound)
  {
  }

  /** Fold layers in, lowest precedence first. */
  function Stack(layers: seq<PartialTurn>): PartialTurn {
    if layers == [] then Unbound else Over(Stack(layers[..|layers| - 1]), layers[|layers| - 1])
  }

  /** The binding of the last layer that has one. */
  function Highest(layers: seq<PartialTurn>, path: Path): Option<Value> {
    if layers == [] then None
    else
      var top := Binding(layers[|layers| - 1], path);
      if top.Some? then top else Highest(layers[..|layers| - 1], path)
  }

  lemma {:induction false} StackBindsHighest(layers: seq<PartialTurn>, path: Path)
    ensures Binding(Stack(layers), path) == Highest(layers, path)
  {
    if layers != [] {
      var below, top := layers[..|layers| - 1], layers[|layers| - 1];
      StackBindsHighest(below, path);
      OverBinds(Stack(below), top, path);
    }
  }
}
