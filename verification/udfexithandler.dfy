/** The user-defined exit handler (`invoke_user_defined_exit_handler`): the
    Metaflow configuration is filtered, defaulted and merged into the process
    environment without overwriting it, and the user's function is called
    with the run's status, parameters, names, UI URL and retry count. */
module UdfExitHandler {
  import opened Results
  import opened Text
  import opened ExitHandler

  const DefaultUser := "aip-user"

  /** Python's `f"{x}"` of an optional string: `None` prints as `None`. */
  function Format(x: Option<string>): string {
    if x.Some? then x.value else "None"
  }

  // ---------------------------------------------------------------------------
  // Configuration merge
  // ---------------------------------------------------------------------------

  /** The configuration entries with a truthy value, and `METAFLOW_USER`
      defaulted to `aip-user` when none is left. */
  function EffectiveConfigs(configs: map<string, Option<string>>): (r: map<string, string>)
    ensures forall k :: k != "METAFLOW_USER" ==> (k in r <==> k in configs && Truthy(configs[k]))
    ensures forall k :: k in r && k != "METAFLOW_USER" ==> Some(r[k]) == configs[k]
    ensures "METAFLOW_USER" in r
    ensures r["METAFLOW_USER"] == if "METAFLOW_USER" in configs && Truthy(configs["METAFLOW_USER"]) then configs["METAFLOW_USER"].value else DefaultUser
    ensures forall k :: k in r ==> r[k] != ""
  {
    var kept := map k | k in configs && Truthy(configs[k]) :: configs[k].value;
    if "METAFLOW_USER" !in kept then kept["METAFLOW_USER" := DefaultUser] else kept
  }

  /** The process environment after the merge: a configuration value is
      written only under a name the environment does not have yet. */
  function MergeEnv(process: map<string, string>, configs: map<string, string>): (r: map<string, string>)
    ensures r.Keys == process.Keys + configs.Keys
    ensures forall k :: k in process ==> r[k] == process[k]
    ensures forall k :: k in configs && k !in process ==> r[k] == configs[k]
  {
    map k | k in process.Keys + configs.Keys :: if k in process then process[k] else configs[k]
  }

  /** Merging twice changes nothing more, and merging into an environment
      that already holds every configured name changes nothing at all. */
  lemma MergeEnvStable(process: map<string, string>, configs: map<string, string>)
    ensures MergeEnv(MergeEnv(process, configs), configs) == MergeEnv(process, configs)
    ensures configs.Keys <= process.Keys ==> MergeEnv(process, configs) == process
  {
    var once := MergeEnv(process, configs);
    assert MergeEnv(once, configs).Keys == once.Keys;
    if configs.Keys <= process.Keys {
      assert once.Keys == process.Keys;
    }
  }

  // ---------------------------------------------------------------------------
  // The call
  // ---------------------------------------------------------------------------

  /** The arguments the user's function receives. */
  datatype UdfCall<P> = UdfCall(
    status: string, flowParameters: P, argoWorkflowRunName: Option<string>,
    metaflowRunId: string, argoUiUrl: string, retries: int)

  /** What `invoke_user_defined_exit_handler` is called with, the JSON
      arguments already decoded except the flow parameters. */
  datatype UdfArgs = UdfArgs(
    status: string, runId: string, env: Environment, flowParametersJson: string,
    configs: map<string, Option<string>>, retries: string)

  /** The Argo UI link of the run: `{prefix}/argo-ui/workflows/{namespace}/{run id}`
      with an empty prefix and namespace when they are not configured. */
  function ArgoUiUrl(e: Environment, runId: string): (url: string)
    ensures var prefix := Format(GetEnv(e, "ARGO_RUN_URL_PREFIX", Some("")));
            var namespace := Format(GetEnv(e, "POD_NAMESPACE", Some("")));
            url == prefix + "/argo-ui/workflows/" + namespace + "/" + runId
  {
    Format(GetEnv(e, "ARGO_RUN_URL_PREFIX", Some(""))) + "/argo-ui/workflows/" +
    Format(GetEnv(e, "POD_NAMESPACE", Some(""))) + "/" + runId
  }

  /** With neither a prefix nor a namespace configured, the link is the bare
      path, and the run id is its last segment. */
  lemma ArgoUiUrlDefaults(e: Environment, runId: string)
    requires "ARGO_RUN_URL_PREFIX" !in e.json && "ARGO_RUN_URL_PREFIX" !in e.process
    requires "POD_NAMESPACE" !in e.json && "POD_NAMESPACE" !in e.process
    ensures ArgoUiUrl(e, runId) == "/argo-ui/workflows//" + runId
  {
  }

  /** The handler's effect: the merged process environment and the call
      made, or the exception raised while decoding the parameters or the
      retry count. `loads` stands for `json.loads`. */
  datatype UdfOutcome<P> = UdfOutcome(process: map<string, string>, call: UdfCall<P>)

  /** `invoke_user_defined_exit_handler`: merges the configuration, then calls
      the user's function; the flow parameters are decoded before the retry
      count is converted. */
  function InvokeUdf<P>(a: UdfArgs, loads: string -> Result<P>): (r: Result<UdfOutcome<P>>)
    ensures r.Ok? <==> loads(a.flowParametersJson).Ok? && ParseInt(a.retries).Ok?
    ensures loads(a.flowParametersJson).Err? ==> r == Err(loads(a.flowParametersJson).error)
    ensures r.Ok? ==> r.value.process == MergeEnv(a.env.process, EffectiveConfigs(a.configs))
    ensures r.Ok? ==> var c := r.value.call;
                      c.status == a.status && c.flowParameters == loads(a.flowParametersJson).value &&
                      c.metaflowRunId == a.runId && c.retries == ParseInt(a.retries).value &&
                      c.argoWorkflowRunName == GetEnv(a.env, "MF_ARGO_WORKFLOW_NAME", Some("")) &&
                      c.argoUiUrl == ArgoUiUrl(a.env, a.runId)
  {
    var process := MergeEnv(a.env.process, EffectiveConfigs(a.configs));
    var params :- loads(a.flowParametersJson);
    var retries :- ParseInt(a.retries);
    Ok(UdfOutcome(process, UdfCall(a.status, params, GetEnv(a.env, "MF_ARGO_WORKFLOW_NAME", Some("")), a.runId,
                                   ArgoUiUrl(a.env, a.runId), retries)))
  }

  /** A retry count printed as a number reaches the handler unchanged. */
  lemma InvokeUdfRetries<P>(a: UdfArgs, loads: string -> Result<P>, n: int)
    requires a.retries == IntToString(n) && loads(a.flowParametersJson).Ok?
    ensures InvokeUdf(a, loads).Ok? && InvokeUdf(a, loads).value.call.retries == n
  {
    IntToStringRoundTrip(n);
  }
}
