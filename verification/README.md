# A Dafny model of the Metaflow-to-Kubeflow (AIP) compiler

This project models the core of Metaflow's AIP plugin. The plugin compiles a
Metaflow flow graph into a Kubeflow Pipelines (KFP) pipeline and then into an
Argo `Workflow` or `WorkflowTemplate` manifest. It also holds the two
exit-handler entry points that run when such a workflow ends.

The model covers:

- **Components** (`Decorators`). Each step's decorators become an `AIPComponent`:
  - user-code and total retries;
  - minutes between retries and the backoff factor;
  - Kubernetes resource requirements;
  - the first AIP, accelerator, interruptible and environment decorators;
  - the preceding-component bindings.
- **Scheduling** (`Scheduling`). Container requests and limits, the
  shared-memory volume, and node placement: tolerations and node-selector
  terms for accelerators, large pods and spot capacity.
- **Step ops** (`StepOps`). The container op of one step: its command flags,
  declared output files, image, artifact arguments, retry strategy and volume
  mount.
- **The DAG walk** (`FlowGraph`, `WalkState`, `DagWalk`). `build_kfp_dag`
  walks the graph from `start` and emits:
  - a step op per step;
  - a preceding-component op after a step whose successor has a preceding
    component;
  - a volume op for a step that asks for a volume;
  - a `ParallelFor` loop per foreach.

  The matching join of a foreach is compiled after its loop, outside it.
- **The pipeline function** (`Pipeline`):
  - components for every step;
  - the exit-handler and sensor ops;
  - the walk;
  - the pass that wires every graph edge into op dependencies;
  - `start` made to wait for the sensor.
- **Flow labels** (`FlowLabels`). `_get_flow_labels`: fixed labels, tag labels
  with their length and value checks (the value regular expression is a small
  automaton), the owner, and the Zodiac labels.
- **Manifest post-processing** (`Manifest`):
  - KFP annotations and labels stripped;
  - the kind dispatch;
  - the concurrency semaphore and its config map;
  - card artifacts marked unarchived;
  - the exit handler woven into an Argo `onExit` template;
  - the cron workflow.
- **Exit handlers** (`ExitHandler`, `UdfExitHandler`):
  - the configuration lookup;
  - the email and SQS decisions;
  - the merge of the Metaflow configuration into the environment;
  - the call of the user-defined handler.

Shared helpers:

- `Results` holds `Option`, `Result` (with `:-` propagation), the errors the
  source raises, and Python truthiness of optional strings.
- `Text` holds decimal printing and parsing with their round trip, `split` and
  `join`, and the character helpers.

Things outside the core are parameters of the model. These include the KFP
compiler's output (an input `Workflow` record), `sanitize_k8s_name`,
`json.dumps`/`json.loads`, and the KFP resource-quantity parsers. I/O is
modelled as the actions it would take.

## Model

| member | source | states |
|---|---|---|
| Decorators.MaxRetryCounts | metaflow/plugins/aip/aip.py:554-567 | the two counts are the largest user-code and error retry counts over all decorators, each attained by some decorator or zero |
| Decorators.Retries | metaflow/plugins/aip/aip.py:554-567 | user-code retries are the largest user-code count; total retries are that plus the largest error count, so they bound every decorator's sum |
| Decorators.RetriesOfNoDecorators | metaflow/plugins/aip/aip.py:554-567 | a step without decorators has no retries |
| Decorators.FirstWhere | metaflow/plugins/aip/aip.py:724-755 | `next(...)` over the decorators: the first position satisfying the predicate, or none when no decorator does |
| Decorators.FirstWhereFindsFirst | metaflow/plugins/aip/aip.py:724-755 | whenever position `k` holds a matching decorator and none comes before it, `k` is the position found |
| Decorators.MinutesBetweenRetries | metaflow/plugins/aip/aip.py:570-578 | none without a retry decorator; a value only when some retry decorator exists |
| Decorators.MinutesBetweenRetriesUnits | metaflow/plugins/aip/aip.py:570-578 | the first retry decorator decides: an integer or decimal string gets an `m` suffix, any other string passes unchanged |
| Decorators.RetryBackoffFactor | metaflow/plugins/aip/aip.py:581-586 | `Ok(None)` exactly when no retry decorator exists; otherwise `int()` of the attribute, with its failure |
| Decorators.RetryBackoffFactorOfFirst | metaflow/plugins/aip/aip.py:581-586 | the first retry decorator's `retry_backoff_factor` decides: a missing attribute is an error, an integer is kept, a float gives its recorded integer part, and a string is read by `int()`, whose failure is the result |
| Decorators.ToK8sResourceFormat | metaflow/plugins/aip/aip.py:589-595 | a bare number for memory or volume gets the `M` suffix; every other value is its string form |
| Decorators.ToK8sResourceFormatIdempotent | metaflow/plugins/aip/aip.py:589-595 | formatting a formatted value changes nothing |
| Decorators.MemoryIntegerGetsMegabytes | metaflow/plugins/aip/aip.py:589-595 | an integer memory request `n` becomes `nM`, whose digits read back as `n` |
| Decorators.SetAttributes | metaflow/plugins/aip/aip.py:625-632 | a resources decorator contributes exactly its non-None attributes, each formatted |
| Decorators.ResourceRequirements | metaflow/plugins/aip/aip.py:598-634 | fails with the local-storage error exactly when some resources decorator asks for `local_storage` |
| Decorators.ResourceRequirementsKeys | metaflow/plugins/aip/aip.py:598-634 | the requirements name exactly the resources some decorator sets |
| Decorators.ResourceRequirementsLastWins | metaflow/plugins/aip/aip.py:598-634 | each requirement is the formatted value of the last decorator that sets it |
| Decorators.BindingNames | metaflow/plugins/aip/aip.py:131-139 | a string binding splits on single spaces into words that join back to it; a list is taken as is |
| Decorators.FirstAip | metaflow/plugins/aip/aip.py:724-731 | no AIP settings iff no AIP decorator; otherwise those of the first AIP decorator |
| Decorators.FirstAccelerator | metaflow/plugins/aip/aip.py:732-739 | no accelerator iff no accelerator decorator; otherwise the type of the first one |
| Decorators.AnyInterruptible | metaflow/plugins/aip/aip.py:740-747 | the component is interruptible iff some decorator is |
| Decorators.FirstEnvironment | metaflow/plugins/aip/aip.py:748-755 | no environment iff no environment decorator; otherwise the Kubernetes variables of the first one |
| Decorators.ComponentOf | metaflow/plugins/aip/aip.py:100-146 | the component holds the given step name, task id, requirements and backoff factor, the retries and retry pacing of the decorators, and the first AIP, accelerator and environment decorators; the preceding function and its split input and output bindings come from the AIP decorator, and are absent without one |
| Decorators.ComponentOfTakesFirst | metaflow/plugins/aip/aip.py:724-755 | when position `k` holds the first AIP, accelerator or environment decorator, the component takes exactly that decorator's settings |
| Decorators.BuildComponent | metaflow/plugins/aip/aip.py:705-759 | @batch or @schedule refuse the step; a built component carries the step name and task id, is interruptible iff an interruptible decorator exists, retries iff some decorator asks, and has bindings only with an AIP decorator |
| Decorators.BuildComponentDerives | metaflow/plugins/aip/aip.py:705-759 | a component builds iff no unsupported decorator is present and both the requirements and the backoff factor are derived; it is then the component assembled from exactly those |
| Decorators.TwoRetryDecoratorsTakeTheMax | metaflow/plugins/aip/aip.py:554-567 | two retry decorators with 2 and 5 user-code retries give 5 user-code and 5 total retries |
| Scheduling.ResourceBasedToleration | metaflow/plugins/aip/aip.py:806-817 | the large-node toleration is given iff memory reaches 16 GB or cpu reaches 8 cores |
| Scheduling.ContainerResourcesOf | metaflow/plugins/aip/aip.py:843-871 | memory, cpu, gpu and shared memory are set iff requested, each with the requested value as request and limit; the GPU vendor is the requested one when non-empty and `nvidia` otherwise; shared memory is a memory volume of the requested size named after the step and mounted at `dev/shm` |
| Scheduling.ContainerResourcesOfDecorators | metaflow/plugins/aip/aip.py:843-860 | the container requests memory, cpu, a GPU or shared memory iff some resources decorator of the step sets it |
| Scheduling.ContainerRequestOfLastDecorator | metaflow/plugins/aip/aip.py:598-634 | the container's memory or cpu request is the formatted value of the last resources decorator that sets it |
| Scheduling.SharedMemoryVolumeName | metaflow/plugins/aip/aip.py:858-870 | each character of the step name is lower-cased, an underscore becoming `-`, and `-shm` follows; the name has no upper-case letter or underscore |
| Scheduling.SharedMemoryVolumeNameKeepsValid | metaflow/plugins/aip/aip.py:858-870 | a step name that is already a valid volume name is kept, with `-shm` appended |
| Scheduling.GpuPodNotSteeredBySize | metaflow/plugins/aip/aip.py:806-817 | a pod that asks for a GPU never gets the large-node toleration, whatever its cpu and memory |
| Scheduling.PlacementOf | metaflow/plugins/aip/aip.py:873-942 | an accelerator type brings its toleration and match expression, which comes first; large pods without an accelerator or GPU tolerate large nodes; spot is tolerated and selected, as the last expression, iff the step is interruptible; the term holds exactly those expressions and exists iff it has one |
| Scheduling.PlacementTolerationCount | metaflow/plugins/aip/aip.py:873-942 | at most two tolerations, and the accelerator and large-node tolerations exclude each other |
| Scheduling.SmallPodHasNoConstraints | metaflow/plugins/aip/aip.py:873-942 | a small CPU-only pod without decorators has no tolerations and no node selector |
| StepOps.FlagsOfStepKind | metaflow/plugins/aip/aip.py:1444-1451 | `--is_foreach_step` iff foreach, `--is_split_index` iff some parent is a foreach, `--is-join-step` iff join |
| StepOps.FlagsOfArguments | metaflow/plugins/aip/aip.py:1442-1447 | only `start` gets the flow parameters (the placeholder when the flow has parameters, else `[]`); the namespace is passed iff set |
| StepOps.CardCount | metaflow/plugins/aip/aip.py:1482-1486 | the card count is zero iff no decorator is named `card` |
| StepOps.CardOutputs | metaflow/plugins/aip/aip.py:1482-1486 | outputs `card1` to `cardn`, each with its numbered path, and nothing else |
| StepOps.FileOutputs | metaflow/plugins/aip/aip.py:1479-1493 | every preceding-component input is declared with its data path; a foreach declares its splits |
| StepOps.FileOutputsContents | metaflow/plugins/aip/aip.py:1479-1493 | the default card, the numbered cards and a foreach's splits keep their paths unless a preceding input of the same name overrides them |
| StepOps.FileOutputsOnly | metaflow/plugins/aip/aip.py:1479-1493 | no output is declared beyond the cards, the foreach splits and the preceding inputs |
| StepOps.CardKeyShape | metaflow/plugins/aip/aip.py:1485 | a numbered card key is `card` followed by digits, never the default card or the splits key |
| StepOps.StepImage | metaflow/plugins/aip/aip.py:1467-1473 | the AIP decorator's image when it names one, the base image otherwise |
| StepOps.ArtifactArguments | metaflow/plugins/aip/aip.py:1475-1477 | every step but `start` receives the flow parameters artifact |
| StepOps.StepRetry | metaflow/plugins/aip/aip.py:1242-1248 | a retry strategy with policy `Always` and the component's limit and pacing exists iff total retries are positive |
| StepOps.VolumeDir | metaflow/plugins/aip/aip.py:684-688 | the requested volume directory, or empty when none is requested |
| StepOps.StepSpecOf | metaflow/plugins/aip/aip.py:1399-1493 | the command passes the step name, task id, split index, preceding inputs and outputs, user-code retries and volume directory; `--is_foreach_step`, `--is_split_index` and `--is-join-step` are set iff the step is a foreach, has a foreach parent or is a join; only `start` gets the flow parameters and no artifact argument; the image is the AIP image when set; every preceding input is a declared output; the environment is the environment decorator's; a retry strategy exists iff total retries are positive; a GPU is requested iff asked; spot is tolerated iff interruptible |
| DagWalk.OutputsDict | metaflow/plugins/aip/aip.py:1268-1278 | successors receive each declared output of the preceding op, named when it has several, its single output otherwise |
| DagWalk.HookArgs | metaflow/plugins/aip/aip.py:1259-1264 | the preceding function receives the step op's outputs named by its preceding inputs, in order |
| DagWalk.EmitStep | metaflow/plugins/aip/aip.py:1197-1287 | emitting a step fails iff a successor has a preceding component but the first one has none (a call of None), or a volume lacks its directory |
| DagWalk.Emitted | metaflow/plugins/aip/aip.py:1197-1287 | the step op is registered under the step, a preceding op follows it iff a successor has a preceding component, and a volume op iff one is requested |
| DagWalk.NewStepOp | metaflow/plugins/aip/aip.py:1199-1251 | the step op has the walk's split index, loop and dependency on the preceding op, and mounts a volume iff one is requested |
| DagWalk.HookOp | metaflow/plugins/aip/aip.py:1256-1266 | a preceding op exists iff some successor has a preceding component; it calls the first successor's function and runs after the step, in its loop |
| DagWalk.NewVolumeOp | metaflow/plugins/aip/aip.py:819-837 | a volume op `create-<step>-volume` of the requested size exists iff a volume is requested |
| DagWalk.HookOutputs | metaflow/plugins/aip/aip.py:1256-1278 | successors receive nothing without a preceding component, and otherwise exactly its declared outputs |
| DagWalk.Append | metaflow/plugins/aip/aip.py:1233-1287 | appending a step's ops keeps the state consistent and dependencies backwards, and changes nothing compiled before |
| DagWalk.Walk | metaflow/plugins/aip/aip.py:1185-1332 | a compiled step returns at once; otherwise the step is compiled with the given split index, loop and preceding op, the state only grows, and foreach joins are compiled only after their foreach |
| DagWalk.WalkNew | metaflow/plugins/aip/aip.py:1194-1332 | a new step is compiled as the op emitted next, and its successors are compiled as described by `SuccessorsCompiled` |
| DagWalk.WalkFrom | metaflow/plugins/aip/aip.py:1289-1332 | after a step, a foreach compiles its loop and join, and any other step compiles its successors |
| DagWalk.WalkForeach | metaflow/plugins/aip/aip.py:1289-1313 | a foreach's successor is compiled in a new loop over its splits with the loop item as split index; its matching join is compiled in the foreach's own loop with the foreach's split index |
| DagWalk.WalkJoin | metaflow/plugins/aip/aip.py:1306-1313 | the matching join, if not compiled before, is compiled in the foreach's loop after the loop |
| DagWalk.WalkChildren | metaflow/plugins/aip/aip.py:1314-1332 | every successor up to the first that joins a foreach is compiled; the first of them, unless compiled before, is compiled with the step's split index, loop and preceding op |
| DagWalk.WalkSiblings | metaflow/plugins/aip/aip.py:1315-1332 | the successors after one compiled successor, in order |
| DagWalk.OpenLoop | metaflow/plugins/aip/aip.py:1292-1294 | a new loop over the foreach step op's `foreach_splits` output, nested in the current loop, leaves the ops unchanged |
| DagWalk.WalkFacts | metaflow/plugins/aip/aip.py:1185-1332 | the walk's postconditions follow from those of the emission and the rest of the walk |
| DagWalk.ForeachFacts | metaflow/plugins/aip/aip.py:1289-1313 | the loop and join facts survive the later walk |
| DagWalk.WalkFailsOnlyAtEmit | metaflow/plugins/aip/aip.py:1185-1332 | the walk fails only if some step it had still to compile cannot be emitted, and it succeeds whenever every such step can be |
| DagWalk.WalkNewFailsOnlyAtEmit | metaflow/plugins/aip/aip.py:1194-1332 | the same for a step compiled now |
| DagWalk.WalkFromFailsOnlyAtEmit | metaflow/plugins/aip/aip.py:1289-1332 | the same for the walk after a step |
| DagWalk.WalkForeachFailsOnlyAtEmit | metaflow/plugins/aip/aip.py:1289-1313 | the same for a foreach's loop and join |
| DagWalk.WalkJoinFailsOnlyAtEmit | metaflow/plugins/aip/aip.py:1306-1313 | the same for the join after a loop |
| DagWalk.WalkChildrenFailsOnlyAtEmit | metaflow/plugins/aip/aip.py:1314-1332 | the same for the successors of a step |
| DagWalk.WalkSiblingsFailsOnlyAtEmit | metaflow/plugins/aip/aip.py:1315-1332 | the same for the successors after one |
| Pipeline.BuildComponents | metaflow/plugins/aip/aip.py:761-768 | succeeds iff every step's component builds, then holds exactly one built component per step; a failure is some step's error |
| Pipeline.AllStepsBuilt | metaflow/plugins/aip/aip.py:761-768 | once every listed step is built, every step of the graph is |
| Pipeline.Wire | metaflow/plugins/aip/aip.py:1363-1368 | succeeds iff both ends of every edge are compiled; then exactly the edges' dependencies are added to step and volume ops, and nothing else changes |
| Pipeline.WireParents | metaflow/plugins/aip/aip.py:1364-1368 | the edges into one step, parent by parent; a failure names a step that was never compiled |
| Pipeline.WireEdge | metaflow/plugins/aip/aip.py:1366-1368 | one edge makes the child's step op and volume op depend on the parent's step op |
| Pipeline.WiredAll | metaflow/plugins/aip/aip.py:1363-1368 | once all listed edges are wired, so is every edge of the graph |
| Pipeline.ConfEnv | metaflow/plugins/aip/aip.py:1586-1592 | exactly the configuration keys that are set and non-empty, with their values |
| Pipeline.NotifyOp | metaflow/plugins/aip/aip.py:1605-1637 | the notify op exists iff notification is on, and passes the error and success addresses iff they are set |
| Pipeline.SqsOp | metaflow/plugins/aip/aip.py:1578-1603 | the SQS op exists iff a queue URL is set, and passes the role iff it is set |
| Pipeline.UserDefinedOp | metaflow/plugins/aip/aip.py:1639-1664 | the user-defined op exists iff the flow has an `exit_handler` decorator |
| Pipeline.ExitHandlerOps | metaflow/plugins/aip/aip.py:1337-1348 | the exit-handler ops are independent top-level ops, and some exist iff notify, SQS or a user handler is configured |
| Pipeline.PreludeOps | metaflow/plugins/aip/aip.py:1337-1352 | the ops before the walk end in a sensor op iff the flow has a sensor, and contain an exit handler iff one is configured |
| Pipeline.BuiltComponents | metaflow/plugins/aip/aip.py:761-768 | when every component builds, one built component per step |
| Pipeline.BuiltAreBuiltComponents | metaflow/plugins/aip/aip.py:761-768 | components built one by one for every step are exactly those components |
| Pipeline.CompilePipeline | metaflow/plugins/aip/aip.py:1117-1372 | fails iff some component does not build, the walk from `start` fails, or some edge has an end that was never compiled; on success every step has exactly one step op, `start` is at the top level, every edge is wired, `start` waits for the sensor when there is one, and an exit handler is recorded iff one was created |
| Pipeline.CompileFailsAfterBuild | metaflow/plugins/aip/aip.py:1117-1372 | once every component builds, compilation fails exactly when the walk or the wiring does |
| Pipeline.CompileFailsFor | metaflow/plugins/aip/aip.py:1117-1372 | a failed compilation has a step whose component does not build, a step that cannot be emitted, or an edge with an uncompiled end |
| Pipeline.WalkAndWire | metaflow/plugins/aip/aip.py:1353-1371 | fails iff the walk from `start` fails or leaves an edge end uncompiled; on success the same guarantees as the pipeline function |
| Pipeline.WalkFromStart | metaflow/plugins/aip/aip.py:1353-1355 | `start` is compiled at the top level with no split index or dependency, after the prelude ops, which are left unchanged |
| Pipeline.WireWalked | metaflow/plugins/aip/aip.py:1363-1371 | fails iff some edge has an uncompiled end; otherwise the wiring and the sensor dependency of `start` |
| Pipeline.UndecoratedStepBuilds | metaflow/plugins/aip/aip.py:705-759 | a step without decorators builds, with no preceding function and no resource requirements |
| Pipeline.TwoStepFlowShape | metaflow/plugins/aip/aip.py:1185-1332 | the flow `start` → `end` is well formed, its steps are listed, and neither step has decorators |
| Pipeline.TwoStepFlowEmits | metaflow/plugins/aip/aip.py:1197-1287 | both steps of `start` → `end` can be emitted when no component has a preceding function or volume |
| Pipeline.TwoStepFlowWalks | metaflow/plugins/aip/aip.py:1185-1355 | the walk from `start` over `start` → `end` succeeds and compiles both steps |
| Pipeline.TwoStepFlowEdges | metaflow/plugins/aip/aip.py:1363-1368 | with both steps compiled, every edge of `start` → `end` can be wired |
| Pipeline.TwoStepFlowBuilds | metaflow/plugins/aip/aip.py:761-768 | both components of `start` → `end` build, without preceding functions or requirements |
| Pipeline.TwoStepFlowWithSensorCompiles | metaflow/plugins/aip/aip.py:1117-1372 | the flow `start` → `end` with an S3 sensor and no exit handler compiles |
| Pipeline.CompiledFacts | metaflow/plugins/aip/aip.py:1363-1371 | the step ops are indexed, every edge is wired, and `start` depends on the sensor op |
| FlowLabels.TagLabel | metaflow/plugins/aip/aip.py:1027-1034 | a tag without `:` is a `tag_<tag>` label with value `true`; otherwise it splits at its first `:` |
| FlowLabels.TagLabelOfPair | metaflow/plugins/aip/aip.py:1028-1031 | `name:value` with no `:` in the name gives label `tag_name` with value `value` |
| FlowLabels.FullMatch | metaflow/plugins/aip/aip.py:1045-1047 | the automaton accepts a value iff it fully matches the label-value pattern |
| FlowLabels.CheckedTagLabel | metaflow/plugins/aip/aip.py:1036-1054 | a tag label is accepted iff its name and value are at most 63 characters and the value matches; a long name is the first error |
| FlowLabels.AddTagLabels | metaflow/plugins/aip/aip.py:1027-1056 | succeeds iff every tag is accepted; a failure is the first rejected tag's error |
| FlowLabels.TagLabelsLastWins | metaflow/plugins/aip/aip.py:1027-1056 | the labels are the earlier ones plus one per tag, the last tag with a given name winning; untagged labels keep their values |
| FlowLabels.Owner | metaflow/plugins/aip/aip.py:1063-1066 | the owner has no `@` and is a prefix of the user name |
| FlowLabels.OwnerIsBeforeFirstAt | metaflow/plugins/aip/aip.py:1063-1066 | the owner is the whole name without `@`, and otherwise ends right before the first `@` |
| FlowLabels.Labels | metaflow/plugins/aip/aip.py:1009-1078 | succeeds iff every tag is accepted; flow name, owner and product `batch` are always set; the Zodiac service and team labels are set iff both are configured, holding the configured values |
| FlowLabels.LabelsKeepTags | metaflow/plugins/aip/aip.py:1020-1056 | the experiment label exists iff an experiment is given; each tag's last occurrence gives its label |
| FlowLabels.LabelKeys | metaflow/plugins/aip/aip.py:1009-1078 | every label is a fixed one or a tag label |
| Manifest.StripKeys | metaflow/plugins/aip/aip.py:233-248 | exactly the keys without the KFP prefix remain, with their values |
| Manifest.StripWorkflow | metaflow/plugins/aip/aip.py:233-248 | no KFP key remains on the workflow or any template, and nothing but metadata changes |
| Manifest.StripKeepsClean | metaflow/plugins/aip/aip.py:233-248 | a workflow without KFP keys is left unchanged |
| Manifest.StripIdempotent | metaflow/plugins/aip/aip.py:233-248 | stripping twice is stripping once |
| Manifest.EncodeParams | metaflow/plugins/aip/aip.py:272-275 | one parameter per flow parameter, in order and by name; a plain string value is kept verbatim |
| Manifest.ApplyKind | metaflow/plugins/aip/aip.py:276-307 | any other kind is refused; a template needs a name or a `generateName`; the service account is dropped; a template is named by its sanitized name or its trimmed `generateName` |
| Manifest.AttachSemaphore | metaflow/plugins/aip/aip.py:309-317 | with a concurrency limit the workflow takes the semaphore named after the sanitized name; otherwise it is unchanged |
| Manifest.ConfigMapOf | metaflow/plugins/aip/aip.py:436-447 | a config map exists iff the limit is set; its single key holds the limit, which reads back as the same number |
| Manifest.SemaphoreMatchesConfigMap | metaflow/plugins/aip/aip.py:523-542 | with the name sanitized once for the config map and again for the semaphore: a semaphore is set only when the config map exists, the config map holds the key the semaphore reads, and the semaphore names that config map iff sanitizing the sanitized name changes nothing |
| Manifest.ArchiveCards | metaflow/plugins/aip/aip.py:426-433 | every card artifact is marked unarchived and nothing else changes |
| Manifest.RemoveExitTasks | metaflow/plugins/aip/aip.py:358-370 | the entrypoint keeps exactly its tasks that are not exit handlers |
| Manifest.RemoveExitTasksKeepsOthers | metaflow/plugins/aip/aip.py:358-370 | a task list without exit handlers is left unchanged |
| Manifest.FindTemplate | metaflow/plugins/aip/aip.py:358-363 | the first template with the given name, or none |
| Manifest.ExitTasks | metaflow/plugins/aip/aip.py:377-421 | fails iff a user handler has neither `on_success` nor `on_failure`; every task is named after its template |
| Manifest.ExitTasksRun | metaflow/plugins/aip/aip.py:377-421 | SQS runs iff a queue is set and the run failed; notify runs iff on, unless success without a success address; the user handler runs on success iff `on_success` and on failure iff `on_failure` |
| Manifest.Weave | metaflow/plugins/aip/aip.py:327-421 | a missing entrypoint is refused; it succeeds iff the entrypoint exists, is a DAG and the exit tasks are valid; then `onExit` names the appended exit-handler template holding those tasks, and only the entrypoint changes, losing its exit tasks |
| Manifest.WeaveClearsEntrypoint | metaflow/plugins/aip/aip.py:358-375 | the woven workflow's entrypoint is still found, is a DAG, and holds no exit-handler task |
| Manifest.Prepare | metaflow/plugins/aip/aip.py:250-317 | kind errors come first; parameters are encoded, metadata is clean and the service account is gone |
| Manifest.Decorate | metaflow/plugins/aip/aip.py:319-325 | the flow labels are added, other labels kept, metadata stays clean and cards are unarchived |
| Manifest.CreateWorkflow | metaflow/plugins/aip/aip.py:250-423 | an unsupported kind is refused; on success the parameters, flow labels, clean metadata and unarchived cards are present, and `onExit` is the exit handler iff one was created |
| Manifest.WeaveKeeps | metaflow/plugins/aip/aip.py:327-421 | weaving keeps cards unarchived |
| Manifest.FlowLabelsNotKfp | metaflow/plugins/aip/aip.py:319-323 | no flow label carries the KFP prefix, so stripping cannot remove one |
| Manifest.CronWorkflowOf | metaflow/plugins/aip/aip.py:449-478 | the cron workflow refers to the template by name, is suspended iff recurring runs are off, uses the never-firing schedule when none is given, and has arguments iff there are parameters |
| Manifest.CronRunsTemplate | metaflow/plugins/aip/aip.py:523-538 | with the flow name sanitized once for both, a non-empty name gives a template whose encoded parameters the CronWorkflow passes, and the CronWorkflow refers to the template iff sanitizing the sanitized name changes nothing |
| ExitHandler.GetEnv | metaflow/plugins/aip/aip_exit_handler.py:50-51 | the JSON value wins even when null, then the process environment, then the default |
| ExitHandler.Layered | metaflow/plugins/aip/aip_exit_handler.py:50-51 | the layered map holds the names of both sources |
| ExitHandler.GetEnvIsLayeredLookup | metaflow/plugins/aip/aip_exit_handler.py:50-51 | the lookup is a lookup in the JSON laid over the process environment |
| ExitHandler.EmailTarget | metaflow/plugins/aip/aip_exit_handler.py:144-155 | no mail unless notification is on; the success address on success when set; otherwise the error address iff set |
| ExitHandler.SqsAction | metaflow/plugins/aip/aip_exit_handler.py:157-176 | a message is sent iff SQS is on, a queue is set and the run did not succeed; it carries the flow parameters and the configured role |
| ExitHandler.SmtpPort | metaflow/plugins/aip/aip_exit_handler.py:60 | an unset SMTP port is the `int(None)` TypeError; a set one is read by `int()`, with its ValueError |
| ExitHandler.SmtpPortReadsBack | metaflow/plugins/aip/aip_exit_handler.py:60 | a port configured as the decimal form of a number is read back as that number |
| ExitHandler.Dispatch | metaflow/plugins/aip/aip_exit_handler.py:143-176 | the handler completes iff it emails nobody, or the SMTP port reads and the mail is sent; a failure of the email step is the handler's error; on completion the actions are the email decision and the queue decision |
| ExitHandler.QueueFollowsEmail | metaflow/plugins/aip/aip_exit_handler.py:143-176 | a queue message is sent only when the queue decision asks for one and the email step completed; without notification the queue decision always stands |
| ExitHandler.MissingPortStopsQueue | metaflow/plugins/aip/aip_exit_handler.py:144-176 | a failed run with an error address, no SMTP port and a queue raises the TypeError and queues nothing, though the queue decision would send |
| ExitHandler.DispatchByStatus | metaflow/plugins/aip/aip_exit_handler.py:143-176 | on success nothing is queued and the success address, when set, is the one emailed; otherwise only the error address is emailed |
| ExitHandler.SuccessFallsBackToErrorAddress | metaflow/plugins/aip/aip_exit_handler.py:150-153 | a success without a success address still emails the error address |
| UdfExitHandler.EffectiveConfigs | metaflow/plugins/aip/aip_udf_exit_handler.py:49-57 | exactly the truthy configuration values are kept, and `METAFLOW_USER` defaults to `aip-user` |
| UdfExitHandler.MergeEnv | metaflow/plugins/aip/aip_udf_exit_handler.py:59-63 | configuration values fill in only names the environment lacks; existing values are never overwritten |
| UdfExitHandler.MergeEnvStable | metaflow/plugins/aip/aip_udf_exit_handler.py:59-63 | merging twice equals merging once; an environment that already has every name is unchanged |
| UdfExitHandler.ArgoUiUrl | metaflow/plugins/aip/aip_udf_exit_handler.py:43-47 | the link is the prefix, `/argo-ui/workflows/`, the namespace, `/` and the run id |
| UdfExitHandler.ArgoUiUrlDefaults | metaflow/plugins/aip/aip_udf_exit_handler.py:45-47 | without prefix and namespace the link is the bare path ending in the run id |
| UdfExitHandler.InvokeUdf | metaflow/plugins/aip/aip_udf_exit_handler.py:59-77 | the call happens iff the parameters decode and the retry count parses (the decode error first); it passes the status, parameters, workflow name, run id, UI link and retries |
| UdfExitHandler.InvokeUdfRetries | metaflow/plugins/aip/aip_udf_exit_handler.py:76 | a retry count printed as a number reaches the handler unchanged |
| Text.IntToStringRoundTrip | metaflow/plugins/aip/aip.py:436-447 | printing an integer and parsing it back gives the integer, as the concurrency limit does through the config map |
| Text.SplitJoinRoundTrip | metaflow/plugins/aip/aip.py:131-139 | splitting on a separator and joining back gives the original string |
| Text.IndexOfFirst | metaflow/plugins/aip/aip.py:1028-1029 | the first occurrence is the one found |

## Left out

- Python's I/O and services are left out: SMTP mail, SQS and boto3 role
  assumption, the logging and `print`s. The exit handlers return the actions
  they would take.
- The KFP compiler (`_create_workflow`) and the YAML dump are left out. The
  compiled workflow is an input record with the fields the post-processing
  reads.
- `sanitize_k8s_name`, `json.dumps`, `json.loads` and the resource-quantity
  parsers are function parameters. They are foreign code, so the model
  relies on nothing about them.
- `graph_to_task_ids` and `step_task_retry_count` are in files that are not
  part of this model. The task ids are an input map, and each decorator
  carries its two retry counts as data.
- Components are built in the graph's step order. The source iterates the
  task-id dictionary, which covers the same steps; only which failing step's
  error is raised first can differ.
- The step command line is modelled by its fields, not as a shell string:
  quoting, `--metaflow_configs_json` and the package commands.
- The pod labels and annotations added by `pipeline_transform`, the cache
  setting, parallelism, timeout and TTL are left out.
- The S3 sensor op's arguments are left out. Only its existence and the
  dependency of `start` on it are modelled.
- The exit-handler ops' commands, images and resources are left out. Only
  their presence and environment are modelled.
- The email body and `run_id_to_url` are left out.
- The `StopIteration` the user-defined handler raises when the flow has no
  `exit_handler` decorator is left out. The model starts at the call.
- JSON values in the exit-handler environments are strings or null.
- `recurring_run_enable` is a boolean.
- Metadata annotations and labels are assumed present in the compiled
  workflow. The source indexes them directly.
- The assignment of `serviceAccountName` after it is popped for a
  `WorkflowTemplate` has no observable effect and is left out.
- The large-node thresholds take the parsed quantities as integer millicores
  and bytes (8000 and 16 000 000 000), so sub-millicore and sub-byte fractions
  are lost. The source compares float vCPUs and gigabytes against 8 and 16.
- `write_workflow_kind`, which dispatches on the output kind, is not a member;
  `SemaphoreMatchesConfigMap` takes the name it sanitizes once.
- The walk requires a well-formed graph:
  - every name is in the graph;
  - a foreach has a successor and a matching join;
  - joins have split parents.

  The source relies on the Metaflow graph checker for these.
- Decorators.MinutesBetweenRetries: the contract states when a value exists;
  the suffix rule is stated by `MinutesBetweenRetriesUnits` for integers and
  strings only. Float values use their string form, which Dafny does not
  model as floats.
- Scheduling.ResourceBasedToleration: works on the already-parsed cpu and
  memory numbers, because the parsers are foreign code.
- Pipeline.CompilePipeline: does not state the contents of the exit-handler
  and sensor ops beyond their presence. The op-level facts are stated by
  `NotifyOp`, `SqsOp` and `UserDefinedOp`.
- DagWalk.WalkChildren: only the first successor is stated to be compiled
  with the step's split index, loop and preceding op. A later successor may
  already have been compiled by an earlier sibling's walk, where the source
  returns at once, so for later successors the contract states only that
  they are compiled.
- Decorators.ToK8sResourceFormat: tests for a number with ASCII digits only.
  Python's `isnumeric` also accepts other numerals such as `½`, which the
  model formats without the `M` suffix.
- Decorators.MinutesBetweenRetriesUnits: tests for ASCII digits only.
  Python's `isdecimal` also accepts other decimal digits, such as Arabic-Indic
  ones, which the model passes without the `m` suffix.
- Scheduling.SharedMemoryVolumeName: lower-cases ASCII letters only. Python's
  `lower` also maps letters such as `É` and `İ`, which the model keeps.
- UdfExitHandler.InvokeUdf: returns the merged environment only with the
  call. On a decode or parse error the source has already merged the
  configuration into `os.environ`; the model does not return that state.
- Decorators.RetryBackoffFactorOfFirst: a float attribute carries its integer
  part as data, because Dafny does not model floats; `int()` raising on an
  infinite or NaN float is not modelled.
- ExitHandler.Dispatch: the outcome of sending the mail (connecting to the
  SMTP host and `sendmail`) is a parameter; the SMTP host, sender and body are
  not checked. The SQS send's own failures are left to the caller.
- Text.ParseInt: accepts an optional sign followed by ASCII digits. Python's
  `int()` also accepts surrounding whitespace, underscores between digits and
  non-ASCII digits; those inputs are modelled as errors.
