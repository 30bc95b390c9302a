/** The Argo manifest the compiler writes out (`_create_workflow_yaml` and the
    documents next to it): the Kubeflow keys are stripped, the output kind is
    applied, the concurrency semaphore and the flow labels are attached, card
    artifacts are left unarchived, and the exit handlers are woven into an
    `onExit` DAG. The workflow the KFP compiler produces is an input record. */
module Manifest {
  import opened Results
  import opened Text
  import opened FlowLabels
  import opened Pipeline

  // ---------------------------------------------------------------------------
  // The workflow document
  // ---------------------------------------------------------------------------

  /** The annotations and labels of a `metadata` section. */
  datatype Meta = Meta(annotations: map<string, string>, labels: map<string, string>)

  /** A DAG task; `when` is the Argo condition under which it runs. */
  datatype Task = Task(name: string, template: string, when: Option<string>, dependencies: seq<string>)

  /** An output artifact; `unarchived` is an `archive: {none: {}}` section. */
  datatype Artifact = Artifact(name: string, unarchived: bool)

  /** A template: its optional `metadata`, its DAG tasks when it is a DAG, and
      its output artifacts when it has an `outputs.artifacts` section. */
  datatype Template = Template(name: string, metadata: Option<Meta>, dag: Option<seq<Task>>, artifacts: Option<seq<Artifact>>)

  /** A `configMapKeyRef` semaphore. */
  datatype Semaphore = Semaphore(configMap: string, key: string)

  datatype Param = Param(name: string, value: string)

  /** The fields of the workflow the post-processing reads or writes. */
  datatype Workflow = Workflow(
    kind: string, name: Option<string>, generateName: Option<string>, meta: Meta,
    entrypoint: string, templates: seq<Template>, serviceAccountName: Option<string>,
    parameters: seq<Param>, synchronization: Option<Semaphore>, onExit: Option<string>)

  /** A flow parameter value: a dictionary is JSON-encoded, anything else is
      passed as it is. */
  datatype FlowValue = Plain(text: string) | Dict(fields: seq<(string, string)>)

  // ---------------------------------------------------------------------------
  // Stripping the Kubeflow annotations and labels
  // ---------------------------------------------------------------------------

  const KfpPrefix := "pipelines.kubeflow.org/"

  /** The keys of `d` without the Kubeflow prefix, with their values. */
  function StripKeys(d: map<string, string>): (r: map<string, string>)
    ensures forall k :: k in r <==> k in d && !StartsWith(k, KfpPrefix)
    ensures forall k :: k in r ==> r[k] == d[k]
  {
    map k | k in d && !StartsWith(k, KfpPrefix) :: d[k]
  }

  function StripMeta(m: Meta): Meta {
    Meta(StripKeys(m.annotations), StripKeys(m.labels))
  }

  function StripTemplate(t: Template): Template {
    if t.metadata.Some? then t.(metadata := Some(StripMeta(t.metadata.value))) else t
  }

  /** No key of the section starts with the Kubeflow prefix. */
  predicate CleanMeta(m: Meta) {
    (forall k :: k in m.annotations ==> !StartsWith(k, KfpPrefix)) &&
    (forall k :: k in m.labels ==> !StartsWith(k, KfpPrefix))
  }

  /** No Kubeflow key is left on the workflow or on any template. */
  predicate Clean(wf: Workflow) {
    CleanMeta(wf.meta) &&
    forall i :: 0 <= i < |wf.templates| && wf.templates[i].metadata.Some? ==> CleanMeta(wf.templates[i].metadata.value)
  }

  /** `_remove_kfp_annotations_labels`: the workflow's own annotations and
      labels, and those of every template that has a `metadata` section, lose
      their Kubeflow keys; nothing else changes. */
  function StripWorkflow(wf: Workflow): (r: Workflow)
    ensures Clean(r)
    ensures r == wf.(meta := r.meta, templates := r.templates)
    ensures |r.templates| == |wf.templates|
    ensures forall i :: 0 <= i < |wf.templates| ==>
              r.templates[i] == wf.templates[i].(metadata := r.templates[i].metadata) &&
              (r.templates[i].metadata.Some? <==> wf.templates[i].metadata.Some?)
  {
    wf.(meta := StripMeta(wf.meta),
        templates := seq(|wf.templates|, i requires 0 <= i < |wf.templates| => StripTemplate(wf.templates[i])))
  }

  /** Keys without the Kubeflow prefix are kept with their values: a
      workflow with no Kubeflow key is left exactly as it was. */
  lemma StripKeepsClean(wf: Workflow)
    requires Clean(wf)
    ensures StripWorkflow(wf) == wf
  {
    var r := StripWorkflow(wf);
    assert StripMeta(wf.meta) == wf.meta;
    forall i | 0 <= i < |wf.templates|
      ensures r.templates[i] == wf.templates[i]
    {
      var t := wf.templates[i];
      if t.metadata.Some? {
        assert StripMeta(t.metadata.value) == t.metadata.value;
      }
    }
  }

  /** Stripping twice strips nothing more. */
  lemma StripIdempotent(wf: Workflow)
    ensures StripWorkflow(StripWorkflow(wf)) == StripWorkflow(wf)
  {
    StripKeepsClean(StripWorkflow(wf));
  }

  // ---------------------------------------------------------------------------
  // Parameters, kind and semaphore
  // ---------------------------------------------------------------------------

  /** The workflow arguments for the flow parameters, in order: a dictionary
      value is JSON-encoded by `dumps`, any other value is kept. */
  function EncodeParams(params: seq<(string, FlowValue)>, dumps: seq<(string, string)> -> string): (r: seq<Param>)
    ensures |r| == |params|
    ensures forall i :: 0 <= i < |params| ==> r[i].name == params[i].0
    ensures forall i :: 0 <= i < |params| && params[i].1.Plain? ==> r[i].value == params[i].1.text
  {
    seq(|params|, i requires 0 <= i < |params| =>
      Param(params[i].0, match params[i].1 { case Plain(v) => v case Dict(d) => dumps(d) }))
  }

  /** The metadata name derived from `generateName`: that name without its
      trailing dashes. */
  predicate TrimmedGenerateName(name: string, gen: string) {
    StartsWith(gen, name) && (name == "" || name[|name| - 1] != '-') &&
    forall i :: |name| <= i < |gen| ==> gen[i] == '-'
  }

  /** The kind dispatch: a `Workflow` only loses its service account; a
      `WorkflowTemplate` also gets its kind and a static name (the sanitized
      `name` when one is given, otherwise `generateName`, which is popped,
      without trailing dashes); any other kind raises. */
  function ApplyKind(wf: Workflow, kind: string, name: Option<string>, sanitize: string -> string): (r: Result<Workflow>)
    ensures r.Ok? <==> kind == "Workflow" || (kind == "WorkflowTemplate" && (Truthy(name) || wf.generateName.Some?))
    ensures kind != "Workflow" && kind != "WorkflowTemplate" ==> r == Err(UnsupportedKind(kind))
    ensures kind == "WorkflowTemplate" && r.Err? ==> r == Err(MissingKey("generateName"))
    ensures r.Ok? ==> r.value.serviceAccountName.None? && r.value.kind == (if kind == "Workflow" then wf.kind else kind)
    ensures r.Ok? ==> r.value == wf.(kind := r.value.kind, name := r.value.name, generateName := r.value.generateName,
                                      serviceAccountName := None)
    ensures r.Ok? && kind == "Workflow" ==> r.value.name == wf.name && r.value.generateName == wf.generateName
    ensures r.Ok? && kind == "WorkflowTemplate" && Truthy(name) ==>
              r.value.name == Some(sanitize(name.value)) && r.value.generateName == wf.generateName
    ensures r.Ok? && kind == "WorkflowTemplate" && !Truthy(name) ==>
              r.value.generateName.None? && r.value.name.Some? && TrimmedGenerateName(r.value.name.value, wf.generateName.value)
  {
    if kind == "Workflow" then Ok(wf.(serviceAccountName := None))
    else if kind == "WorkflowTemplate" then
      if Truthy(name) then
        Ok(wf.(kind := kind, name := Some(sanitize(name.value)), serviceAccountName := None))
      else if wf.generateName.None? then Err(MissingKey("generateName"))
      else
        Ok(wf.(kind := kind, name := Some(RStrip(wf.generateName.value, '-')), generateName := None, serviceAccountName := None))
    else Err(UnsupportedKind(kind))
  }

  const ConcurrencyKey := "max_run_concurrency"

  /** `max_run_concurrency and max_run_concurrency > 0`. */
  predicate Limited(maxRunConcurrency: Option<int>) {
    maxRunConcurrency.Some? && maxRunConcurrency.value > 0
  }

  /** The semaphore is set, on the config map named after the sanitized
      workflow name, exactly when the concurrency is limited; otherwise the
      workflow is left as it is. */
  function AttachSemaphore(wf: Workflow, maxRunConcurrency: Option<int>, name: string, sanitize: string -> string): (r: Workflow)
    ensures r == wf.(synchronization := r.synchronization)
    ensures Limited(maxRunConcurrency) ==> r.synchronization == Some(Semaphore(sanitize(name), ConcurrencyKey))
    ensures !Limited(maxRunConcurrency) ==> r == wf
  {
    if Limited(maxRunConcurrency) then wf.(synchronization := Some(Semaphore(sanitize(name), ConcurrencyKey))) else wf
  }

  /** The ConfigMap that holds the concurrency limit. */
  datatype ConfigMap = ConfigMap(name: string, data: map<string, string>)

  /** `_config_map`: the limit as a decimal string under `max_run_concurrency`;
      a missing or non-positive limit raises. */
  function ConfigMapOf(workflowName: string, maxRunConcurrency: Option<int>): (r: Result<ConfigMap>)
    ensures r.Ok? <==> Limited(maxRunConcurrency)
    ensures r.Err? ==> r.error == InvalidConcurrency
    ensures r.Ok? ==> r.value.name == workflowName && r.value.data.Keys == {ConcurrencyKey}
    ensures r.Ok? ==> ParseInt(r.value.data[ConcurrencyKey]) == Ok(maxRunConcurrency.value)
  {
    if !Limited(maxRunConcurrency) then Err(InvalidConcurrency)
    else
      IntToStringRoundTrip(maxRunConcurrency.value);
      Ok(ConfigMap(workflowName, map[ConcurrencyKey := IntToString(maxRunConcurrency.value)]))
  }

  /** `write_workflow_kind` sanitizes the flow name once and hands it both to
      the config map and to the workflow, which sanitizes it again for the
      semaphore. The workflow waits on a semaphore only when the config map
      can be built; the config map holds the key the semaphore reads, and the
      semaphore names that config map exactly when sanitizing is idempotent
      on the name. */
  lemma SemaphoreMatchesConfigMap(wf: Workflow, maxRunConcurrency: Option<int>, flowName: string, sanitize: string -> string)
    ensures var once := sanitize(flowName);
            var r := AttachSemaphore(wf, maxRunConcurrency, once, sanitize);
            var cm := ConfigMapOf(once, maxRunConcurrency);
            && (r.synchronization != wf.synchronization ==> cm.Ok?)
            && (cm.Ok? ==> ConcurrencyKey in cm.value.data)
            && (cm.Ok? ==> (r.synchronization == Some(Semaphore(cm.value.name, ConcurrencyKey)) <==> sanitize(once) == once))
  {
  }

  // ---------------------------------------------------------------------------
  // Card artifacts
  // ---------------------------------------------------------------------------

  function ArchiveArtifact(a: Artifact): Artifact {
    if Contains(a.name, "-card") then a.(unarchived := true) else a
  }

  function ArchiveTemplate(t: Template): Template {
    if t.artifacts.None? then t
    else t.(artifacts := Some(seq(|t.artifacts.value|, j requires 0 <= j < |t.artifacts.value| => ArchiveArtifact(t.artifacts.value[j]))))
  }

  /** Every output artifact whose name contains `-card` is unarchived. */
  predicate CardsUnarchived(wf: Workflow) {
    forall i :: 0 <= i < |wf.templates| && wf.templates[i].artifacts.Some? ==> ArtifactsUnarchived(wf.templates[i].artifacts.value)
  }

  predicate ArtifactsUnarchived(artifacts: seq<Artifact>) {
    forall j :: 0 <= j < |artifacts| && Contains(artifacts[j].name, "-card") ==> artifacts[j].unarchived
  }

  /** `_add_archive_section_to_cards_artifacts`: card artifacts get an
      `archive: none` section; every other artifact, and everything else, is
      left alone. */
  function ArchiveCards(wf: Workflow): (r: Workflow)
    ensures CardsUnarchived(r)
    ensures r == wf.(templates := r.templates) && |r.templates| == |wf.templates|
    ensures forall i :: 0 <= i < |wf.templates| ==>
              r.templates[i] == wf.templates[i].(artifacts := r.templates[i].artifacts) &&
              (r.templates[i].artifacts.Some? <==> wf.templates[i].artifacts.Some?)
    ensures forall i :: 0 <= i < |wf.templates| && wf.templates[i].artifacts.Some? ==>
              |r.templates[i].artifacts.value| == |wf.templates[i].artifacts.value| &&
              forall j :: 0 <= j < |wf.templates[i].artifacts.value| ==>
                r.templates[i].artifacts.value[j].name == wf.templates[i].artifacts.value[j].name &&
                (!Contains(wf.templates[i].artifacts.value[j].name, "-card") ==>
                   r.templates[i].artifacts.value[j] == wf.templates[i].artifacts.value[j])
  {
    wf.(templates := seq(|wf.templates|, i requires 0 <= i < |wf.templates| => ArchiveTemplate(wf.templates[i])))
  }

  // ---------------------------------------------------------------------------
  // Exit-handler weaving
  // ---------------------------------------------------------------------------

  const ExitHandlerName := "exit-handler"
  const SqsTaskName := "sqs-exit-handler"
  const NotifyTaskName := "notify-email-exit-handler"
  const UserDefinedTaskName := "user-defined-exit-handler"
  const SucceededCondition := "{{workflow.status}} == 'Succeeded'"
  const FailedCondition := "{{workflow.status}} != 'Succeeded'"

  /** The `on_success` and `on_failure` attributes of the `exit_handler`
      decorator, after their defaults (both true) are applied. */
  datatype UdfFlags = UdfFlags(onSuccess: bool, onFailure: bool)

  /** A task the compiler created for an exit handler. */
  predicate IsExitTask(t: Task) {
    Contains(t.name, ExitHandlerName)
  }

  /** The entrypoint's tasks without the exit-handler ones, in order. */
  function RemoveExitTasks(tasks: seq<Task>): (r: seq<Task>)
    ensures |r| <= |tasks|
    ensures forall t :: t in r <==> t in tasks && !IsExitTask(t)
    decreases |tasks|
  {
    if |tasks| == 0 then []
    else (if IsExitTask(tasks[0]) then [] else [tasks[0]]) + RemoveExitTasks(tasks[1..])
  }

  /** A DAG without exit-handler tasks is kept as it is, order included. */
  lemma {:induction false} RemoveExitTasksKeepsOthers(tasks: seq<Task>)
    requires forall i :: 0 <= i < |tasks| ==> !IsExitTask(tasks[i])
    ensures RemoveExitTasks(tasks) == tasks
    decreases |tasks|
  {
    if |tasks| > 0 {
      assert forall i :: 0 <= i < |tasks[1..]| ==> tasks[1..][i] == tasks[i + 1];
      RemoveExitTasksKeepsOthers(tasks[1..]);
    }
  }

  /** The index of the first template named `name`. */
  function FindTemplate(ts: seq<Template>, name: string): (r: Option<nat>)
    ensures r.None? <==> forall i :: 0 <= i < |ts| ==> ts[i].name != name
    ensures r.Some? ==> r.value < |ts| && ts[r.value].name == name && forall i :: 0 <= i < r.value ==> ts[i].name != name
    decreases |ts|
  {
    if |ts| == 0 then None
    else if ts[0].name == name then Some(0)
    else
      var r := FindTemplate(ts[1..], name);
      assert forall i :: 1 <= i < |ts| ==> ts[1..][i - 1] == ts[i];
      if r.None? then None else Some(r.value + 1)
  }

  function HandlerTask(name: string, when: Option<string>): Task {
    Task(name, name, when, [])
  }

  /** The SQS task, when a queue is set, runs on failure only. */
  function SqsTasks(x: ExitSettings): seq<Task> {
    if Truthy(x.sqsUrlOnError) then [HandlerTask(SqsTaskName, Some(FailedCondition))] else []
  }

  /** The notify task, when notification is on, always runs if a success
      address is set and otherwise on failure only. */
  function NotifyTasks(x: ExitSettings): seq<Task> {
    if !x.notify then []
    else [HandlerTask(NotifyTaskName, if Truthy(x.notifyOnSuccess) then None else Some(FailedCondition))]
  }

  /** The user-defined task, when the flow has one, runs on the statuses its
      flags select; with both flags off there is no condition to give it. */
  function UserDefinedTasks(x: ExitSettings, udf: UdfFlags): Result<seq<Task>> {
    if !x.userDefined then Ok([])
    else if udf.onSuccess && udf.onFailure then Ok([HandlerTask(UserDefinedTaskName, None)])
    else if udf.onSuccess then Ok([HandlerTask(UserDefinedTaskName, Some(SucceededCondition))])
    else if udf.onFailure then Ok([HandlerTask(UserDefinedTaskName, Some(FailedCondition))])
    else Err(NoExitCondition)
  }

  /** The tasks of the `exit-handler` DAG: SQS, then notify, then the
      user-defined handler. */
  function ExitTasks(x: ExitSettings, udf: UdfFlags): (r: Result<seq<Task>>)
    ensures r.Err? <==> x.userDefined && !udf.onSuccess && !udf.onFailure
    ensures r.Err? ==> r.error == NoExitCondition
    ensures r.Ok? ==> forall t :: t in r.value ==> t.name == t.template && t.dependencies == []
  {
    var udfTasks :- UserDefinedTasks(x, udf);
    Ok(SqsTasks(x) + NotifyTasks(x) + udfTasks)
  }

  /** Whether a task with condition `when` runs when the workflow ends with
      `status`: no condition always runs, and the two conditions the compiler
      writes compare the status with `Succeeded`. */
  predicate Runs(when: Option<string>, status: string) {
    when.None? ||
    (when.value == SucceededCondition && status == "Succeeded") ||
    (when.value == FailedCondition && status != "Succeeded")
  }

  /** Some task named `name` runs when the workflow ends with `status`. */
  predicate RunsTask(tasks: seq<Task>, name: string, status: string) {
    exists t :: t in tasks && t.name == name && Runs(t.when, status)
  }

  /** When each exit handler runs: SQS on failure when a queue is set; email
      when notification is on, on failure, or always when a success address
      is set; the user-defined handler on success when `on_success` is set and
      on failure when `on_failure` is set. */
  lemma ExitTasksRun(x: ExitSettings, udf: UdfFlags, status: string)
    requires ExitTasks(x, udf).Ok?
    ensures var tasks := ExitTasks(x, udf).value;
            && (RunsTask(tasks, SqsTaskName, status) <==> Truthy(x.sqsUrlOnError) && status != "Succeeded")
            && (RunsTask(tasks, NotifyTaskName, status) <==> x.notify && (Truthy(x.notifyOnSuccess) || status != "Succeeded"))
            && (RunsTask(tasks, UserDefinedTaskName, status) <==>
                  x.userDefined && (if status == "Succeeded" then udf.onSuccess else udf.onFailure))
  {
    var sqs, notify, user := SqsTasks(x), NotifyTasks(x), UserDefinedTasks(x, udf).value;
    assert ExitTasks(x, udf).value == sqs + notify + user;
    assert SucceededCondition[20] == '=' && FailedCondition[20] == '!';
    assert SqsTaskName[0] == 's' && NotifyTaskName[0] == 'n' && UserDefinedTaskName[0] == 'u';
    OnlyNamed(sqs, SqsTaskName, NotifyTaskName, status);
    OnlyNamed(sqs, SqsTaskName, UserDefinedTaskName, status);
    OnlyNamed(notify, NotifyTaskName, SqsTaskName, status);
    OnlyNamed(notify, NotifyTaskName, UserDefinedTaskName, status);
    OnlyNamed(user, UserDefinedTaskName, SqsTaskName, status);
    OnlyNamed(user, UserDefinedTaskName, NotifyTaskName, status);
    SingleRuns(sqs, status);
    SingleRuns(notify, status);
    SingleRuns(user, status);
    RunsTaskSplit(sqs, notify, user, SqsTaskName, status);
    RunsTaskSplit(sqs, notify, user, NotifyTaskName, status);
    RunsTaskSplit(sqs, notify, user, UserDefinedTaskName, status);
  }

  /** Tasks all named `name` run nothing named otherwise. */
  lemma OnlyNamed(ts: seq<Task>, name: string, other: string, status: string)
    requires forall i :: 0 <= i < |ts| ==> ts[i].name == name
    requires name != other
    ensures !RunsTask(ts, other, status)
  {
  }

  /** At most one task: it runs by its own condition. */
  lemma SingleRuns(ts: seq<Task>, status: string)
    requires |ts| <= 1
    ensures |ts| == 0 ==> !RunsTask(ts, "", status) && forall n :: !RunsTask(ts, n, status)
    ensures |ts| == 1 ==> forall n :: RunsTask(ts, n, status) <==> ts[0].name == n && Runs(ts[0].when, status)
  {
    if |ts| == 1 {
      assert forall t :: t in ts <==> t == ts[0];
    }
  }

  /** A task runs from a concatenation when it runs from one of the parts. */
  lemma RunsTaskSplit(a: seq<Task>, b: seq<Task>, c: seq<Task>, name: string, status: string)
    ensures RunsTask(a + b + c, name, status) <==> RunsTask(a, name, status) || RunsTask(b, name, status) || RunsTask(c, name, status)
  {
    if RunsTask(a + b + c, name, status) {
      var t :| t in a + b + c && t.name == name && Runs(t.when, status);
      assert t in a || t in b || t in c;
    }
  }

  /** The weaving done when an exit handler was created: the first template
      named like the entrypoint loses its exit-handler tasks, an
      `exit-handler` DAG template with the handler tasks is appended and
      `onExit` names it. No entrypoint template is an IndexError, an
      entrypoint that is not a DAG a KeyError. */
  function Weave(wf: Workflow, x: ExitSettings, udf: UdfFlags): (r: Result<Workflow>)
    ensures FindTemplate(wf.templates, wf.entrypoint).None? ==> r == Err(MissingEntrypoint(wf.entrypoint))
    ensures r.Ok? <==> FindTemplate(wf.templates, wf.entrypoint).Some? &&
                       wf.templates[FindTemplate(wf.templates, wf.entrypoint).value].dag.Some? &&
                       ExitTasks(x, udf).Ok?
    ensures r.Ok? ==> r.value == wf.(templates := r.value.templates, onExit := Some(ExitHandlerName))
    ensures r.Ok? ==> |r.value.templates| == |wf.templates| + 1 &&
                      r.value.templates[|wf.templates|] == Template(ExitHandlerName, None, Some(ExitTasks(x, udf).value), None)
    ensures r.Ok? ==> var e := FindTemplate(wf.templates, wf.entrypoint).value;
                      forall i :: 0 <= i < |wf.templates| ==>
                        r.value.templates[i] == (if i == e then wf.templates[e].(dag := Some(RemoveExitTasks(wf.templates[e].dag.value)))
                                                 else wf.templates[i])
  {
    match FindTemplate(wf.templates, wf.entrypoint)
    case None => Err(MissingEntrypoint(wf.entrypoint))
    case Some(e) =>
      var t := wf.templates[e];
      if t.dag.None? then Err(MissingKey("dag"))
      else
        var tasks :- ExitTasks(x, udf);
        var handler := Template(ExitHandlerName, None, Some(tasks), None);
        Ok(wf.(templates := wf.templates[e := t.(dag := Some(RemoveExitTasks(t.dag.value)))] + [handler],
               onExit := Some(ExitHandlerName)))
  }

  /** After weaving, the entrypoint DAG has no exit-handler task left. */
  lemma WeaveClearsEntrypoint(wf: Workflow, x: ExitSettings, udf: UdfFlags)
    requires Weave(wf, x, udf).Ok?
    ensures var r := Weave(wf, x, udf).value;
            var e := FindTemplate(r.templates, r.entrypoint);
            e.Some? && r.templates[e.value].dag.Some? &&
            forall t :: t in r.templates[e.value].dag.value ==> !IsExitTask(t)
  {
    var r := Weave(wf, x, udf).value;
    var e := FindTemplate(wf.templates, wf.entrypoint).value;
    assert r.templates[e].name == wf.entrypoint;
    assert forall i :: 0 <= i < e ==> r.templates[i].name != r.entrypoint;
    assert FindTemplate(r.templates, r.entrypoint) == Some(e) by {
      var f := FindTemplate(r.templates, r.entrypoint);
      assert f.Some?;
      assert f.value <= e;
      assert !(f.value < e);
    }
  }

  // ---------------------------------------------------------------------------
  // The whole manifest
  // ---------------------------------------------------------------------------

  /** What `_create_workflow_yaml` is called with besides the compiled
      workflow. `name` is the optional static name; `sanitize` and `dumps`
      stand for `sanitize_k8s_name` and `json.dumps`. */
  datatype ManifestInputs = ManifestInputs(
    params: seq<(string, FlowValue)>, kind: string, maxRunConcurrency: Option<int>, name: Option<string>,
    labels: LabelInputs, exitHandlerCreated: bool, exit: ExitSettings, udf: UdfFlags)

  /** The first steps of `_create_workflow_yaml` after the KFP compiler:
      strip, parameters, kind and semaphore. */
  function Prepare(compiled: Workflow, m: ManifestInputs, sanitize: string -> string,
                   dumps: seq<(string, string)> -> string): (r: Result<Workflow>)
    ensures r.Ok? <==> ApplyKind(StripWorkflow(compiled), m.kind, m.name, sanitize).Ok?
    ensures r.Err? ==> r == ApplyKind(StripWorkflow(compiled), m.kind, m.name, sanitize)
    ensures r.Ok? ==> r.value.parameters == EncodeParams(m.params, dumps) && r.value.serviceAccountName.None?
    ensures r.Ok? ==> CleanMeta(r.value.meta) && r.value.onExit == compiled.onExit
    ensures r.Ok? ==> (r.value.synchronization == compiled.synchronization || Limited(m.maxRunConcurrency))
  {
    var wf := StripWorkflow(compiled);
    var wf := wf.(parameters := EncodeParams(m.params, dumps));
    var wf :- ApplyKind(wf, m.kind, m.name, sanitize);
    Ok(AttachSemaphore(wf, m.maxRunConcurrency, if Truthy(m.name) then m.name.value else m.labels.flowName, sanitize))
  }

  /** The flow labels merged into the workflow's labels, then the card
      artifacts unarchived. */
  function Decorate(wf: Workflow, labels: map<string, string>): (r: Workflow)
    requires forall k :: k in labels ==> !StartsWith(k, KfpPrefix)
    ensures r == wf.(meta := r.meta, templates := r.templates) && r.meta.annotations == wf.meta.annotations
    ensures CleanMeta(wf.meta) ==> CleanMeta(r.meta)
    ensures forall k :: k in labels ==> k in r.meta.labels && r.meta.labels[k] == labels[k]
    ensures forall k :: k in wf.meta.labels && k !in labels ==> k in r.meta.labels && r.meta.labels[k] == wf.meta.labels[k]
    ensures CardsUnarchived(r)
  {
    ArchiveCards(wf.(meta := wf.meta.(labels := wf.meta.labels + labels)))
  }

  /** `_create_workflow_yaml` after the KFP compiler: strip, parameters, kind,
      semaphore, flow labels, card artifacts, then the exit-handler weaving
      when an exit handler was created. The first failing step's exception is
      the result. */
  function CreateWorkflow(compiled: Workflow, m: ManifestInputs, sanitize: string -> string,
                          dumps: seq<(string, string)> -> string): (r: Result<Workflow>)
    ensures m.kind != "Workflow" && m.kind != "WorkflowTemplate" ==> r == Err(UnsupportedKind(m.kind))
    ensures r.Ok? ==> Labels(m.labels).Ok? && r.value.parameters == EncodeParams(m.params, dumps)
    ensures r.Ok? ==> r.value.serviceAccountName.None? && CardsUnarchived(r.value) && CleanMeta(r.value.meta)
    ensures r.Ok? ==> (r.value.synchronization == compiled.synchronization || Limited(m.maxRunConcurrency))
    ensures r.Ok? ==> forall k :: k in Labels(m.labels).value ==>
                        k in r.value.meta.labels && r.value.meta.labels[k] == Labels(m.labels).value[k]
    ensures r.Ok? ==> (r.value.onExit == compiled.onExit || m.exitHandlerCreated)
    ensures r.Ok? && m.exitHandlerCreated ==> r.value.onExit == Some(ExitHandlerName)
  {
    var wf :- Prepare(compiled, m, sanitize, dumps);
    var labels :- Labels(m.labels);
    FlowLabelsNotKfp(m.labels);
    var wf := Decorate(wf, labels);
    if m.exitHandlerCreated then WeaveKeeps(wf, m.exit, m.udf); Weave(wf, m.exit, m.udf) else Ok(wf)
  }

  /** Weaving touches only the templates and `onExit`, and keeps every card
      artifact unarchived. */
  lemma WeaveKeeps(wf: Workflow, x: ExitSettings, udf: UdfFlags)
    requires CardsUnarchived(wf)
    ensures Weave(wf, x, udf).Ok? ==> CardsUnarchived(Weave(wf, x, udf).value)
  {
  }

  /** The flow labels carry no Kubeflow key, so merging them keeps the
      metadata clean. */
  lemma FlowLabelsNotKfp(x: LabelInputs)
    requires Labels(x).Ok?
    ensures forall k :: k in Labels(x).value ==> !StartsWith(k, KfpPrefix)
  {
    LabelKeys(x);
    assert KfpPrefix[0] == 'p';
    assert FlowNameKey[0] == 'm' && ExperimentKey[0] == 'm' && TagPrefix[0] == 'm';
    assert OwnerKey[0] == 'z' && ServiceKey[0] == 'z' && TeamKey[0] == 'z' && ProductKey[0] == 'z';
    forall k | k in Labels(x).value
      ensures !StartsWith(k, KfpPrefix)
    {
      assert k[0] == 'm' || k[0] == 'z';
    }
  }

  // ---------------------------------------------------------------------------
  // CronWorkflow
  // ---------------------------------------------------------------------------

  /** A schedule whose day of month is 0, so it never fires. */
  const NeverSchedule := "* * 0 * *"

  datatype CronWorkflow = CronWorkflow(
    name: string, suspend: bool, schedule: string, concurrencyPolicy: Option<string>,
    templateRef: string, arguments: Option<seq<Param>>)

  /** `_cron_workflow`: a CronWorkflow running the workflow template of the
      same name, suspended unless recurring runs are enabled, on the given
      schedule or one that never fires, with the flow parameters as arguments
      when there are any. */
  function CronWorkflowOf(name: string, params: seq<(string, FlowValue)>, schedule: Option<string>,
                          concurrency: Option<string>, recurringRunEnable: bool,
                          dumps: seq<(string, string)> -> string): (r: CronWorkflow)
    ensures r.name == name && r.templateRef == name && r.concurrencyPolicy == concurrency
    ensures r.suspend <==> !recurringRunEnable
    ensures Truthy(schedule) ==> r.schedule == schedule.value
    ensures !Truthy(schedule) ==> r.schedule == NeverSchedule
    ensures r.arguments.Some? <==> |params| > 0
    ensures r.arguments.Some? ==> r.arguments.value == EncodeParams(params, dumps)
  {
    CronWorkflow(name, !recurringRunEnable, if Truthy(schedule) then schedule.value else NeverSchedule,
                 concurrency, name, if |params| > 0 then Some(EncodeParams(params, dumps)) else None)
  }

  /** `write_workflow_kind` names the `WorkflowTemplate` and its CronWorkflow
      after the same once-sanitized flow name. The template is prepared with
      the name sanitized again, so the CronWorkflow refers to it exactly when
      sanitizing is idempotent on that name; the CronWorkflow passes the same
      encoded parameters the template declares. */
  lemma CronRunsTemplate(compiled: Workflow, m: ManifestInputs, flowName: string, sanitize: string -> string,
                         dumps: seq<(string, string)> -> string, schedule: Option<string>,
                         concurrency: Option<string>, recurringRunEnable: bool)
    requires m.kind == "WorkflowTemplate" && m.name == Some(sanitize(flowName))
    ensures var once := sanitize(flowName);
            var t := Prepare(compiled, m, sanitize, dumps);
            var c := CronWorkflowOf(once, m.params, schedule, concurrency, recurringRunEnable, dumps);
            once != "" ==>
              && t.Ok?
              && (|m.params| > 0 ==> c.arguments == Some(t.value.parameters))
              && (t.value.name == Some(c.templateRef) <==> sanitize(once) == once)
  {
    var once := sanitize(flowName);
    if once != "" {
      var wf := StripWorkflow(compiled).(parameters := EncodeParams(m.params, dumps));
      var applied := ApplyKind(wf, m.kind, m.name, sanitize);
      assert applied.Ok? && applied.value.name == Some(sanitize(once));
      assert Prepare(compiled, m, sanitize, dumps) == Ok(AttachSemaphore(applied.value, m.maxRunConcurrency, once, sanitize));
    }
  }

}
