/** The container op of one step (`_create_metaflow_step_op` and the parts of
    the walk that decorate it): the command-line arguments, the declared output
    files, the image, the environment, the retry strategy, the resources and the
    placement. */
module StepOps {
  import opened Results
  import opened Text
  import opened Decorators
  import opened Scheduling
  import opened FlowGraph

  /** The split indexes handed to a step: the empty string outside any loop,
      or the loop variable of the `ParallelFor` with this id. */
  datatype SplitIndexes = NoIndex | LoopItem(loop: nat)

  /** A reference to an output of an op, by op id: a named output, or the
      single output of an op that declares exactly one. */
  datatype OutputRef = Output(op: nat, name: string) | SingleOutput(op: nat)

  /** The flow-wide values every step command repeats. */
  datatype FlowVariables = FlowVariables(
    flowName: string,
    environment: string,
    eventLogger: string,
    monitor: string,
    namespace: Option<string>,
    tags: seq<string>,
    sysTags: seq<string>,
    packageCommands: string)

  /** The optional switches appended to the step command. */
  datatype Flag =
    | FlowParametersJson(value: string)
    | IsForeachStep
    | Namespace(ns: string)
    | IsSplitIndex
    | IsJoinStep

  /** The arguments of `aip_metaflow_step`, one field per argument the step
      varies. */
  datatype StepCommand = StepCommand(
    volumeDir: string,
    splitIndexes: SplitIndexes,
    precedingInputs: seq<string>,
    precedingOutputs: seq<string>,
    stepName: string,
    taskId: string,
    userCodeRetries: nat,
    interruptible: bool,
    flags: seq<Flag>,
    precedingOutputsDict: map<string, OutputRef>)

  datatype RetryStrategy = RetryStrategy(limit: nat, policy: string, backoffDuration: Option<string>, backoffFactor: Option<int>)

  /** The volume created for the step (by the op with id `claimOp`) mounted at `path`. */
  datatype VolumeMount = VolumeMount(path: string, claimOp: nat)

  datatype StepSpec = StepSpec(
    command: StepCommand,
    image: string,
    artifactArguments: Option<map<string, string>>,
    fileOutputs: map<string, string>,
    env: seq<EnvVar>,
    retry: Option<RetryStrategy>,
    resources: ContainerResources,
    placement: Placement,
    volumeMount: Option<VolumeMount>)

  /** The placeholder the start step receives when the flow has parameters. */
  const FlowParametersPlaceholder := "{{workflow.parameters}}"

  /** `is_split_index`: some predecessor is a foreach. */
  predicate HasForeachParent(g: Graph, n: string)
    requires n in g.nodes
  {
    exists p :: p in g.nodes[n].inFuncs && IsForeach(g, p)
  }

  /** The conditional switches of the step command, in the order they are appended. */
  function Flags(g: Graph, n: string, namespace: Option<string>, hasFlowParameters: bool): (r: seq<Flag>)
    requires n in g.nodes
    ensures |r| <= 5
  {
    var node := g.nodes[n];
    (if n == "start" then [FlowParametersJson(if hasFlowParameters then FlowParametersPlaceholder else "[]")] else [])
    + (if node.nodeType == Foreach then [IsForeachStep] else [])
    + (if Truthy(namespace) then [Namespace(namespace.value)] else [])
    + (if HasForeachParent(g, n) then [IsSplitIndex] else [])
    + (if node.nodeType == Join then [IsJoinStep] else [])
  }

  /** The step-kind switches: a foreach step is told so, a step inside a
      foreach receives its split index, and a join is told so. */
  lemma FlagsOfStepKind(g: Graph, n: string, namespace: Option<string>, hasFlowParameters: bool)
    requires n in g.nodes
    ensures var r := Flags(g, n, namespace, hasFlowParameters);
            && (IsForeachStep in r <==> g.nodes[n].nodeType == Foreach)
            && (IsSplitIndex in r <==> HasForeachParent(g, n))
            && (IsJoinStep in r <==> g.nodes[n].nodeType == Join)
  {
  }

  /** The argument switches: only `start` receives the flow parameters (the
      placeholder when the flow has parameters, an empty list otherwise), and
      a namespace is passed on only when one is set. */
  lemma FlagsOfArguments(g: Graph, n: string, namespace: Option<string>, hasFlowParameters: bool)
    requires n in g.nodes
    ensures var r := Flags(g, n, namespace, hasFlowParameters);
            && (forall v :: FlowParametersJson(v) in r <==>
                  n == "start" && v == (if hasFlowParameters then FlowParametersPlaceholder else "[]"))
            && (forall ns :: Namespace(ns) in r <==> Truthy(namespace) && namespace == Some(ns))
  {
  }

  function CardKey(i: nat): string {
    "card" + NatToString(i)
  }

  function CardPath(i: nat): string {
    "/tmp/outputs/cards/card" + NatToString(i) + ".html"
  }

  const DefaultCardPath := "/tmp/outputs/cards/card.html"
  const ForeachSplitsPath := "/tmp/outputs/foreach_splits/data"

  function OutputPath(name: string): string {
    "/tmp/outputs/" + name + "/data"
  }

  /** The number of decorators named `card`. */
  function CardCount(decos: seq<Decorator>): (n: nat)
    ensures n <= |decos|
    ensures n == 0 <==> forall i :: 0 <= i < |decos| ==> decos[i].name != "card"
  {
    if |decos| == 0 then 0
    else (if decos[0].name == "card" then 1 else 0) + CardCount(decos[1..])
  }

  /** One numbered output per card decorator, `card1` to `card<n>`. */
  function CardOutputs(n: nat): (m: map<string, string>)
    ensures forall i :: 1 <= i <= n ==> CardKey(i) in m && m[CardKey(i)] == CardPath(i)
    ensures forall k :: k in m ==> exists i :: 1 <= i <= n && k == CardKey(i)
  {
    if n == 0 then map[]
    else
      var prev := CardOutputs(n - 1);
      assert forall i :: 1 <= i < n ==> CardKey(i) != CardKey(n) by {
        forall i | 1 <= i < n
          ensures CardKey(i) != CardKey(n)
        {
          CardKeysDistinct(i, n);
        }
      }
      prev[CardKey(n) := CardPath(n)]
  }

  /** `file_outputs`: the default card, one file per card decorator, the
      foreach splits of a foreach step, and one file per field handed to the
      next step's preceding component (these last win on a clash). */
  function FileOutputs(node: Node, precedingInputs: seq<string>): (r: map<string, string>)
    ensures forall p :: p in precedingInputs ==> p in r && r[p] == OutputPath(p)
    ensures node.nodeType == Foreach ==> "foreach_splits" in r
  {
    var cards := CardOutputs(CardCount(node.decorators));
    var splits: map<string, string> := if node.nodeType == Foreach then map["foreach_splits" := ForeachSplitsPath] else map[];
    var inputs := map p | p in precedingInputs :: OutputPath(p);
    map["card" := DefaultCardPath] + cards + splits + inputs
  }

  /** The declared outputs are exactly the default card, the numbered cards,
      the foreach splits of a foreach, and the preceding-component fields;
      each keeps its fixed path unless a preceding-component field of the
      same name overrides it. */
  lemma FileOutputsContents(node: Node, precedingInputs: seq<string>)
    ensures var r := FileOutputs(node, precedingInputs);
            && "card" in r
            && ("card" !in precedingInputs ==> r["card"] == DefaultCardPath)
            && (node.nodeType == Foreach && "foreach_splits" !in precedingInputs ==> r["foreach_splits"] == ForeachSplitsPath)
            && (forall i :: 1 <= i <= CardCount(node.decorators) && CardKey(i) !in precedingInputs ==>
                  CardKey(i) in r && r[CardKey(i)] == CardPath(i))
  {
    var n := CardCount(node.decorators);
    forall i | 1 <= i <= n
      ensures CardKey(i) != "foreach_splits"
    {
      CardKeyShape(i);
    }
  }

  /** No output is declared beyond those. */
  lemma FileOutputsOnly(node: Node, precedingInputs: seq<string>)
    ensures forall k :: k in FileOutputs(node, precedingInputs) ==>
              || k == "card"
              || (exists i :: 1 <= i <= CardCount(node.decorators) && k == CardKey(i))
              || (k == "foreach_splits" && node.nodeType == Foreach)
              || k in precedingInputs
  {
  }

  /** A numbered card key is `card` followed by at least one digit. */
  lemma CardKeyShape(i: nat)
    ensures |CardKey(i)| > 4 && CardKey(i)[..4] == "card"
    ensures CardKey(i) != "card" && CardKey(i) != "foreach_splits"
  {
    var k := CardKey(i);
    assert k[..4] == "card";
    assert k[0] == 'c';
  }

  /** The AIP decorator's image when it names one, the pipeline's base image otherwise. */
  function StepImage(comp: Component, baseImage: string): (r: string)
    ensures comp.aip.Some? && Truthy(comp.aip.value.image) ==> r == comp.aip.value.image.value
    ensures !(comp.aip.Some? && Truthy(comp.aip.value.image)) ==> r == baseImage
  {
    if comp.aip.Some? && Truthy(comp.aip.value.image) then comp.aip.value.image.value else baseImage
  }

  /** Every step but `start` receives the flow parameters as an artifact argument. */
  function ArtifactArguments(n: string): (r: Option<map<string, string>>)
    ensures r.None? <==> n == "start"
    ensures r.Some? ==> r.value == map["flow_parameters_json" := "None"]
  {
    if n == "start" then None else Some(map["flow_parameters_json" := "None"])
  }

  /** A retry strategy is set only when the component allows retries at all. */
  function StepRetry(comp: Component): (r: Option<RetryStrategy>)
    ensures r.Some? <==> comp.totalRetries > 0
    ensures r.Some? ==> r.value.limit == comp.totalRetries && r.value.policy == "Always"
    ensures r.Some? ==> r.value.backoffDuration == comp.minutesBetweenRetries && r.value.backoffFactor == comp.retryBackoffFactor
  {
    if comp.totalRetries > 0 then
      Some(RetryStrategy(comp.totalRetries, "Always", comp.minutesBetweenRetries, comp.retryBackoffFactor))
    else None
  }

  /** The volume directory the command receives: empty when none is requested. */
  function VolumeDir(rr: map<string, string>): (r: string)
    ensures "volume_dir" in rr ==> r == rr["volume_dir"]
    ensures "volume_dir" !in rr ==> r == ""
  {
    if "volume_dir" in rr then rr["volume_dir"] else ""
  }

  /** The settings shared by every step op of one compilation. The two
      functions stand for the resource-quantity parsers of the pipeline
      library (cpu in millicores, memory in bytes). */
  datatype Settings = Settings(
    flow: FlowVariables,
    baseImage: string,
    hasFlowParameters: bool,
    cpuMillicores: string -> int,
    memoryBytes: string -> int)

  /** The complete step op of node `n`: the command runs the component's
      step with the walk's split index and bindings, and the container is
      dressed from the component's decorators. */
  function StepSpecOf(
    g: Graph, n: string, comp: Component, cfg: Settings, split: SplitIndexes,
    precedingInputs: seq<string>, precedingOutputsDict: map<string, OutputRef>,
    volume: Option<VolumeMount>): (r: StepSpec)
    requires n in g.nodes
    // The command names the component's step and task, with the walk's split
    // index and the preceding-component bindings.
    ensures r.command.stepName == comp.stepName && r.command.taskId == comp.taskId
    ensures r.command.splitIndexes == split
    ensures r.command.precedingInputs == precedingInputs && r.command.precedingOutputs == comp.precedingOutputs
    ensures r.command.precedingOutputsDict == precedingOutputsDict
    ensures r.command.userCodeRetries == comp.userCodeRetries && r.command.interruptible == comp.interruptible
    ensures "volume_dir" in comp.resourceRequirements ==> r.command.volumeDir == comp.resourceRequirements["volume_dir"]
    ensures "volume_dir" !in comp.resourceRequirements ==> r.command.volumeDir == ""
    // The switches follow the kind of step; only `start` gets the flow parameters.
    ensures IsForeachStep in r.command.flags <==> g.nodes[n].nodeType == Foreach
    ensures IsSplitIndex in r.command.flags <==> HasForeachParent(g, n)
    ensures IsJoinStep in r.command.flags <==> g.nodes[n].nodeType == Join
    ensures forall v :: FlowParametersJson(v) in r.command.flags ==> n == "start"
    ensures r.artifactArguments.None? <==> n == "start"
    // The image named by the AIP decorator, else the base image.
    ensures comp.aip.Some? && Truthy(comp.aip.value.image) ==> r.image == comp.aip.value.image.value
    ensures !(comp.aip.Some? && Truthy(comp.aip.value.image)) ==> r.image == cfg.baseImage
    // Every field handed to the next preceding component is a declared output.
    ensures forall p :: p in precedingInputs ==> p in r.fileOutputs
    ensures comp.environment.None? ==> r.env == []
    ensures comp.environment.Some? ==> r.env == comp.environment.value
    ensures r.retry.Some? <==> comp.totalRetries > 0
    ensures r.retry.Some? ==> r.retry.value.limit == comp.totalRetries
    ensures r.resources.gpu.Some? <==> "gpu" in comp.resourceRequirements
    ensures SpotToleration in r.placement.tolerations <==> comp.interruptible
    // A GPU pod is never steered onto large nodes by its size.
    ensures r.resources.gpu.Some? ==> HighMemoryToleration !in r.placement.tolerations
    ensures r.volumeMount == volume
  {
    FlagsOfStepKind(g, n, cfg.flow.namespace, cfg.hasFlowParameters);
    FlagsOfArguments(g, n, cfg.flow.namespace, cfg.hasFlowParameters);
    var command := StepCommand(
      VolumeDir(comp.resourceRequirements), split, precedingInputs, comp.precedingOutputs,
      comp.stepName, comp.taskId, comp.userCodeRetries, comp.interruptible,
      Flags(g, n, cfg.flow.namespace, cfg.hasFlowParameters), precedingOutputsDict);
    StepSpec(
      command,
      StepImage(comp, cfg.baseImage),
      ArtifactArguments(n),
      FileOutputs(g.nodes[n], precedingInputs),
      if comp.environment.Some? then comp.environment.value else [],
      StepRetry(comp),
      ContainerResourcesOf(comp.stepName, comp.resourceRequirements),
      PlacementOf(comp.resourceRequirements, comp.accelerator, comp.interruptible, cfg.cpuMillicores, cfg.memoryBytes),
      volume)
  }

  /** Every field handed to the next step's preceding component is a declared
      output file of the step, so the walk can read `outputs[field]`. */
  lemma PrecedingInputsAreOutputs(node: Node, precedingInputs: seq<string>)
    ensures forall p :: p in precedingInputs ==> p in FileOutputs(node, precedingInputs)
  {
  }

  /** Numbered card outputs never collide with each other. */
  lemma CardKeysDistinct(i: nat, j: nat)
    requires i != j
    ensures CardKey(i) != CardKey(j)
  {
    NatToStringRoundTrip(i);
    NatToStringRoundTrip(j);
    assert CardKey(i)[4..] == NatToString(i);
    assert CardKey(j)[4..] == NatToString(j);
  }
}
