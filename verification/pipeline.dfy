/** The pipeline function as a whole: one component per step, the exit-handler
    and sensor ops, the walk from `start`, and the pass that wires every graph
    edge into the ops' dependencies. */
module Pipeline {
  import opened Results
  import opened Decorators
  import opened FlowGraph
  import opened WalkState
  import opened DagWalk
  import opened StepOps

  // ---------------------------------------------------------------------------
  // Components
  // ---------------------------------------------------------------------------

  /** `c` is the component `build_aip_component` returns for step `n`. */
  predicate Built(g: Graph, taskIds: map<string, string>, n: string, c: Component) {
    n in g.nodes && n in taskIds && BuildComponent(n, taskIds[n], g.nodes[n].decorators) == Ok(c)
  }

  /** `_create_aip_components_from_graph`: a component per step, built in the
      order the steps are listed; the first step whose component cannot be
      built stops the build with its error. `taskIds` is the step-to-task-id
      map the graph hands over. */
  method BuildComponents(g: Graph, taskIds: map<string, string>) returns (r: Result<map<string, Component>>)
    requires StepsListed(g) && g.nodes.Keys <= taskIds.Keys
    ensures r.Ok? <==> forall n {:trigger BuildComponent(n, taskIds[n], g.nodes[n].decorators)} ::
                         n in g.nodes ==> BuildComponent(n, taskIds[n], g.nodes[n].decorators).Ok?
    ensures r.Ok? ==> r.value.Keys == g.nodes.Keys
    ensures r.Ok? ==> forall n {:trigger Built(g, taskIds, n, r.value[n])} :: n in r.value ==> Built(g, taskIds, n, r.value[n])
    ensures r.Err? ==> exists n :: n in g.nodes && BuildComponent(n, taskIds[n], g.nodes[n].decorators) == Err(r.error)
  {
    var comps: map<string, Component> := map[];
    var k := 0;
    while k < |g.steps|
      invariant k <= |g.steps|
      invariant forall i :: 0 <= i < k ==> g.steps[i] in comps
      invariant forall n :: n in comps ==> Built(g, taskIds, n, comps[n])
    {
      var n := g.steps[k];
      var c := BuildComponent(n, taskIds[n], g.nodes[n].decorators);
      if c.Err? {
        return Err(c.error);
      }
      StepsBuilt(g, comps, n, c.value, k);
      comps := comps[n := c.value];
      k := k + 1;
    }
    AllStepsBuilt(g, comps);
    return Ok(comps);
  }

  /** Once every listed step is built, every step is. */
  lemma AllStepsBuilt(g: Graph, comps: map<string, Component>)
    requires StepsListed(g)
    requires forall i :: 0 <= i < |g.steps| ==> g.steps[i] in comps
    ensures forall n :: n in g.nodes ==> n in comps
  {
    forall n | n in g.nodes
      ensures n in comps
    {
      var i :| 0 <= i < |g.steps| && g.steps[i] == n;
    }
  }

  /** Adding the component of the step listed at `k` keeps every step listed
      before it built. */
  lemma StepsBuilt(g: Graph, comps: map<string, Component>, n: string, c: Component, k: nat)
    requires k < |g.steps| && g.steps[k] == n
    requires forall i :: 0 <= i < k ==> g.steps[i] in comps
    ensures forall i :: 0 <= i < k + 1 ==> g.steps[i] in comps[n := c]
  {
  }

  /** Built components are what the walk expects of them. */
  lemma BuiltComponentsCompile(g: Graph, comps: map<string, Component>, taskIds: map<string, string>)
    requires WellFormed(g) && g.nodes.Keys <= taskIds.Keys && comps.Keys == g.nodes.Keys
    requires forall n {:trigger Built(g, taskIds, n, comps[n])} :: n in comps ==> Built(g, taskIds, n, comps[n])
    ensures Compiles(g, comps)
  {
    forall n | n in comps
      ensures comps[n].stepName == n
    {
      assert Built(g, taskIds, n, comps[n]);
    }
  }

  /** Every step's component can be built. */
  predicate ComponentsBuild(g: Graph, taskIds: map<string, string>)
    requires g.nodes.Keys <= taskIds.Keys
  {
    forall n {:trigger BuildComponent(n, taskIds[n], g.nodes[n].decorators)} ::
      n in g.nodes ==> BuildComponent(n, taskIds[n], g.nodes[n].decorators).Ok?
  }

  /** The components `_create_aip_components_from_graph` returns when every
      step builds. */
  ghost function BuiltComponents(g: Graph, taskIds: map<string, string>): (comps: map<string, Component>)
    requires g.nodes.Keys <= taskIds.Keys && ComponentsBuild(g, taskIds)
    ensures comps.Keys == g.nodes.Keys
    ensures forall n {:trigger Built(g, taskIds, n, comps[n])} :: n in comps ==> Built(g, taskIds, n, comps[n])
  {
    map n | n in g.nodes :: BuildComponent(n, taskIds[n], g.nodes[n].decorators).value
  }

  /** Components built for every step are the ones `BuiltComponents` names. */
  lemma BuiltAreBuiltComponents(g: Graph, taskIds: map<string, string>, comps: map<string, Component>)
    requires g.nodes.Keys <= taskIds.Keys && comps.Keys == g.nodes.Keys
    requires forall n {:trigger Built(g, taskIds, n, comps[n])} :: n in comps ==> Built(g, taskIds, n, comps[n])
    ensures ComponentsBuild(g, taskIds) && comps == BuiltComponents(g, taskIds)
  {
    forall n | n in g.nodes
      ensures BuildComponent(n, taskIds[n], g.nodes[n].decorators) == Ok(comps[n])
    {
      assert Built(g, taskIds, n, comps[n]);
    }
  }

  // ---------------------------------------------------------------------------
  // Edge wiring
  // ---------------------------------------------------------------------------

  /** Wiring the edge from parent `p` into step `c` makes op `i` depend on op
      `d`: `d` is the step op of `p`, and `i` is the step op of `c` or its
      volume op. */
  predicate EdgeDep(st: State, c: string, p: string, i: nat, d: nat) {
    && c in st.visited && p in st.visited && d == st.visited[p]
    && (i == st.visited[c] || (c in st.volumeOps && i == st.volumeOps[c]))
  }

  /** The graph has an edge from `p` into step `c`: `p` is one of its parents. */
  predicate IsEdge(g: Graph, c: string, p: string) {
    c in g.nodes && p in g.nodes[c].inFuncs
  }

  /** Some edge of the graph makes op `i` depend on op `d`. */
  ghost predicate Wired(g: Graph, st: State, i: nat, d: nat) {
    exists c, p :: IsEdge(g, c, p) && EdgeDep(st, c, p, i, d)
  }

  /** Both ends of every edge of the graph are compiled. */
  ghost predicate EdgesVisited(g: Graph, st: State) {
    forall c, p :: IsEdge(g, c, p) ==> c in st.visited && p in st.visited
  }

  /** `ops` are the ops of `st` with at most their dependencies changed. */
  predicate DepsOnlyChanged(st: State, ops: seq<Op>) {
    && |ops| == |st.ops|
    && (forall i :: 0 <= i < |ops| ==> ops[i] == st.ops[i].(deps := ops[i].deps))
  }

  /** `ops` are the ops of `st` with the dependencies of the graph's edges
      added and nothing else changed. */
  ghost predicate Rewired(g: Graph, st: State, ops: seq<Op>) {
    && DepsOnlyChanged(st, ops)
    && (forall i, d :: 0 <= i < |ops| ==> (d in ops[i].deps <==> d in st.ops[i].deps || Wired(g, st, i, d)))
  }

  function AddDep(op: Op, d: nat): (r: Op)
    ensures r == op.(deps := r.deps) && r.deps == op.deps + {d}
  {
    op.(deps := op.deps + {d})
  }

  /** The edge `j` into the step listed at `k`. */
  predicate EdgeAt(g: Graph, k: int, j: int) {
    && 0 <= k < |g.steps| && g.steps[k] in g.nodes
    && 0 <= j < |g.nodes[g.steps[k]].inFuncs|
  }

  function ParentAt(g: Graph, k: int, j: int): string
    requires EdgeAt(g, k, j)
  {
    g.nodes[g.steps[k]].inFuncs[j]
  }

  /** Edge `(k', j')` comes before edge `(k, j)` in the wiring order. */
  predicate Before(k': int, j': int, k: int, j: int) {
    k' < k || (k' == k && j' < j)
  }

  /** Some edge wired before `(k, j)` makes op `i` depend on op `d`. */
  ghost predicate WiredBefore(g: Graph, st: State, k: int, j: int, i: nat, d: nat) {
    exists k', j' :: EdgeAt(g, k', j') && Before(k', j', k, j) && EdgeDep(st, g.steps[k'], ParentAt(g, k', j'), i, d)
  }

  /** `ops` are the ops of `st` with the dependencies of the edges before
      `(k, j)` added. */
  ghost predicate WiredUpTo(g: Graph, st: State, ops: seq<Op>, k: int, j: int) {
    && DepsOnlyChanged(st, ops)
    && (forall i, d :: 0 <= i < |ops| ==> (d in ops[i].deps <==> d in st.ops[i].deps || WiredBefore(g, st, k, j, i, d)))
  }

  /** Both ends of the edges before `(k, j)` are compiled. */
  ghost predicate VisitedUpTo(g: Graph, st: State, k: int, j: int) {
    forall k', j' :: EdgeAt(g, k', j') && Before(k', j', k, j) ==> g.steps[k'] in st.visited && ParentAt(g, k', j') in st.visited
  }

  /** The wiring pass after the walk: for every step in graph order and each
      of its parents in order, the step op and the step's volume op come to
      depend on the parent's step op. A step or parent with no step op is a
      failed lookup in `visited`. */
  method Wire(g: Graph, st: State) returns (r: Result<seq<Op>>)
    requires WellFormed(g) && StepsListed(g) && StateOk(g, st)
    ensures r.Ok? <==> EdgesVisited(g, st)
    ensures r.Ok? ==> Rewired(g, st, r.value)
    ensures r.Err? ==> r.error.MissingKey? && r.error.key in g.nodes && r.error.key !in st.visited
  {
    var ops := st.ops;
    var k := 0;
    while k < |g.steps|
      invariant k <= |g.steps|
      invariant WiredUpTo(g, st, ops, k, 0) && VisitedUpTo(g, st, k, 0)
    {
      var wired := WireParents(g, st, ops, k);
      if wired.Err? {
        return Err(wired.error);
      }
      ops := wired.value;
      k := k + 1;
    }
    WiredAll(g, st, ops);
    return Ok(ops);
  }

  /** The edges into the step listed at `k`, one parent after the other; the
      step's own lookup in `visited` comes first. */
  method WireParents(g: Graph, st: State, ops0: seq<Op>, k: int) returns (r: Result<seq<Op>>)
    requires WellFormed(g) && StateOk(g, st) && 0 <= k < |g.steps| && g.steps[k] in g.nodes
    requires WiredUpTo(g, st, ops0, k, 0) && VisitedUpTo(g, st, k, 0)
    ensures r.Ok? ==> WiredUpTo(g, st, r.value, k + 1, 0) && VisitedUpTo(g, st, k + 1, 0)
    ensures r.Err? ==> !EdgesVisited(g, st)
    ensures r.Err? ==> r.error.MissingKey? && r.error.key in g.nodes && r.error.key !in st.visited
  {
    var c := g.steps[k];
    var parents := g.nodes[c].inFuncs;
    var ops := ops0;
    var j := 0;
    while j < |parents|
      invariant j <= |parents|
      invariant WiredUpTo(g, st, ops, k, j) && VisitedUpTo(g, st, k, j)
    {
      if c !in st.visited {
        MissingEdge(g, st, k, j);
        return Err(MissingKey(c));
      }
      var p := parents[j];
      assert p in g.nodes;
      if p !in st.visited {
        MissingEdge(g, st, k, j);
        return Err(MissingKey(p));
      }
      var ops' := WireEdge(g, st, ops, c, p);
      WiredStep(g, st, ops, ops', k, j);
      ops := ops';
      j := j + 1;
    }
    WiredRow(g, st, ops, k, j);
    return Ok(ops);
  }

  /** `ops` after wiring the edge from `p` into `c`. */
  function WireEdge(g: Graph, st: State, ops: seq<Op>, c: string, p: string): (r: seq<Op>)
    requires StateOk(g, st) && |ops| == |st.ops| && c in st.visited && p in st.visited
    ensures |r| == |ops|
    ensures forall i :: 0 <= i < |r| ==> r[i] == ops[i].(deps := r[i].deps)
    ensures forall i, d :: 0 <= i < |r| ==> (d in r[i].deps <==> d in ops[i].deps || EdgeDep(st, c, p, i, d))
  {
    var d := st.visited[p];
    var ops1 := ops[st.visited[c] := AddDep(ops[st.visited[c]], d)];
    if c in st.volumeOps then ops1[st.volumeOps[c] := AddDep(ops1[st.volumeOps[c]], d)] else ops1
  }

  /** An edge with an end not compiled is a counterexample to `EdgesVisited`. */
  lemma MissingEdge(g: Graph, st: State, k: int, j: int)
    requires EdgeAt(g, k, j) && (g.steps[k] !in st.visited || ParentAt(g, k, j) !in st.visited)
    ensures !EdgesVisited(g, st)
  {
    assert IsEdge(g, g.steps[k], ParentAt(g, k, j));
  }

  /** One more edge wired keeps the inner loop's invariant. */
  lemma WiredStep(g: Graph, st: State, ops: seq<Op>, ops': seq<Op>, k: int, j: int)
    requires EdgeAt(g, k, j) && g.steps[k] in st.visited && ParentAt(g, k, j) in st.visited
    requires WiredUpTo(g, st, ops, k, j) && VisitedUpTo(g, st, k, j) && |ops'| == |ops|
    requires forall i :: 0 <= i < |ops'| ==> ops'[i] == ops[i].(deps := ops'[i].deps)
    requires forall i, d :: 0 <= i < |ops'| ==> (d in ops'[i].deps <==> d in ops[i].deps || EdgeDep(st, g.steps[k], ParentAt(g, k, j), i, d))
    ensures WiredUpTo(g, st, ops', k, j + 1) && VisitedUpTo(g, st, k, j + 1)
  {
    forall i, d | 0 <= i < |ops'|
      ensures d in ops'[i].deps <==> d in st.ops[i].deps || WiredBefore(g, st, k, j + 1, i, d)
    {
      if WiredBefore(g, st, k, j + 1, i, d) && !WiredBefore(g, st, k, j, i, d) {
        var k', j' :| EdgeAt(g, k', j') && Before(k', j', k, j + 1) && EdgeDep(st, g.steps[k'], ParentAt(g, k', j'), i, d);
        assert k' == k && j' == j;
      }
    }
  }

  /** The edges into the step listed at `k` all wired: on to the next step. */
  lemma WiredRow(g: Graph, st: State, ops: seq<Op>, k: int, j: int)
    requires 0 <= k < |g.steps| && g.steps[k] in g.nodes && j == |g.nodes[g.steps[k]].inFuncs|
    requires WiredUpTo(g, st, ops, k, j) && VisitedUpTo(g, st, k, j)
    ensures WiredUpTo(g, st, ops, k + 1, 0) && VisitedUpTo(g, st, k + 1, 0)
  {
    assert forall k', j' :: EdgeAt(g, k', j') ==> (Before(k', j', k, j) <==> Before(k', j', k + 1, 0));
  }

  /** All edges wired: the ones of the graph, named by their ends. */
  lemma WiredAll(g: Graph, st: State, ops: seq<Op>)
    requires StepsListed(g)
    requires WiredUpTo(g, st, ops, |g.steps|, 0) && VisitedUpTo(g, st, |g.steps|, 0)
    ensures Rewired(g, st, ops) && EdgesVisited(g, st)
  {
    forall i, d | Wired(g, st, i, d)
      ensures WiredBefore(g, st, |g.steps|, 0, i, d)
    {
      var c, p :| IsEdge(g, c, p) && EdgeDep(st, c, p, i, d);
      var k :| 0 <= k < |g.steps| && g.steps[k] == c;
      var j :| 0 <= j < |g.nodes[c].inFuncs| && g.nodes[c].inFuncs[j] == p;
      assert EdgeAt(g, k, j) && Before(k, j, |g.steps|, 0);
    }
    forall c, p | IsEdge(g, c, p)
      ensures c in st.visited && p in st.visited
    {
      var k :| 0 <= k < |g.steps| && g.steps[k] == c;
      var j :| 0 <= j < |g.nodes[c].inFuncs| && g.nodes[c].inFuncs[j] == p;
      assert EdgeAt(g, k, j) && Before(k, j, |g.steps|, 0);
    }
  }

  // ---------------------------------------------------------------------------
  // The pipeline function
  // ---------------------------------------------------------------------------

  /** The flow's exit-handler settings: email notification (`notify`, with the
      error and success addresses), the SQS queue and role for failures, and
      whether the flow carries an `exit_handler` decorator. */
  datatype ExitSettings = ExitSettings(
    notify: bool, notifyOnError: Option<string>, notifyOnSuccess: Option<string>,
    sqsUrlOnError: Option<string>, sqsRoleArnOnError: Option<string>, userDefined: bool)

  /** The configuration values among `keys` that are set and non-empty. */
  function ConfEnv(conf: map<string, string>, keys: set<string>): (env: map<string, string>)
    ensures forall k :: k in env <==> k in keys && k in conf && conf[k] != ""
    ensures forall k :: k in env ==> env[k] == conf[k]
  {
    map k | k in keys && k in conf && conf[k] != "" :: conf[k]
  }

  const NotifyConfKeys: set<string> := {
    "METAFLOW_NOTIFY_EMAIL_FROM", "METAFLOW_NOTIFY_EMAIL_SMTP_HOST", "METAFLOW_NOTIFY_EMAIL_SMTP_PORT",
    "METAFLOW_NOTIFY_EMAIL_BODY", "ARGO_RUN_URL_PREFIX"}

  /** `_create_notify_exit_handler_op`: present iff notification is on; it
      passes the notification configuration and the addresses that are set. */
  function NotifyOp(x: ExitSettings, conf: map<string, string>): (r: Option<Op>)
    ensures r.Some? <==> x.notify
    ensures r.Some? ==> r.value.ExitHandlerOp? && r.value.name == "notify-email-exit-handler"
    ensures r.Some? ==> ("METAFLOW_NOTIFY_ON_ERROR" in r.value.env <==> Truthy(x.notifyOnError))
    ensures r.Some? ==> ("METAFLOW_NOTIFY_ON_SUCCESS" in r.value.env <==> Truthy(x.notifyOnSuccess))
  {
    if !x.notify then None
    else
      var env := ConfEnv(conf, NotifyConfKeys);
      var env := if Truthy(x.notifyOnError) then env["METAFLOW_NOTIFY_ON_ERROR" := x.notifyOnError.value] else env;
      var env := if Truthy(x.notifyOnSuccess) then env["METAFLOW_NOTIFY_ON_SUCCESS" := x.notifyOnSuccess.value] else env;
      Some(ExitHandlerOp("notify-email-exit-handler", "--run_email_notify", env, {}, None))
  }

  /** `_create_sqs_exit_handler_op`: present iff a queue URL is set; the role
      is passed when set. */
  function SqsOp(x: ExitSettings, conf: map<string, string>): (r: Option<Op>)
    ensures r.Some? <==> Truthy(x.sqsUrlOnError)
    ensures r.Some? ==> r.value.ExitHandlerOp? && r.value.name == "sqs-exit-handler"
    ensures r.Some? ==> ("METAFLOW_SQS_ROLE_ARN_ON_ERROR" in r.value.env <==> Truthy(x.sqsRoleArnOnError))
  {
    if !Truthy(x.sqsUrlOnError) then None
    else
      var env := ConfEnv(conf, {"ARGO_RUN_URL_PREFIX"});
      var env := if Truthy(x.sqsRoleArnOnError) then env["METAFLOW_SQS_ROLE_ARN_ON_ERROR" := x.sqsRoleArnOnError.value] else env;
      Some(ExitHandlerOp("sqs-exit-handler", "--run_sqs_on_error", env, {}, None))
  }

  /** `_create_user_defined_exit_handler_op`: present iff the flow has an
      `exit_handler` decorator. */
  function UserDefinedOp(x: ExitSettings, conf: map<string, string>): (r: Option<Op>)
    ensures r.Some? <==> x.userDefined
    ensures r.Some? ==> r.value.ExitHandlerOp? && r.value.name == "user-defined-exit-handler"
    ensures r.Some? ==> ("ARGO_RUN_URL_PREFIX" in r.value.env <==> "ARGO_RUN_URL_PREFIX" in conf && conf["ARGO_RUN_URL_PREFIX"] != "")
  {
    if !x.userDefined then None
    else Some(ExitHandlerOp("user-defined-exit-handler", "", ConfEnv(conf, {"ARGO_RUN_URL_PREFIX"}), {}, None))
  }

  function OptionList(o: Option<Op>): (r: seq<Op>)
    ensures |r| <= 1 && (r == [] <==> o.None?)
  {
    if o.Some? then [o.value] else []
  }

  /** The compiled pipeline: its ops (with dependencies wired), loops, step
      ops and volume ops, and whether an exit handler was created. */
  datatype Compiled = Compiled(ops: seq<Op>, loops: seq<Loop>, visited: map<string, nat>, volumeOps: map<string, nat>, exitHandlerCreated: bool)

  /** The exit-handler ops created, in the order the pipeline function
      creates them. */
  function ExitHandlerOps(x: ExitSettings, conf: map<string, string>): (r: seq<Op>)
    ensures forall i :: 0 <= i < |r| ==> r[i].ExitHandlerOp? && r[i].deps == {} && r[i].loop.None?
    ensures r != [] <==> x.notify || Truthy(x.sqsUrlOnError) || x.userDefined
  {
    OptionList(NotifyOp(x, conf)) + OptionList(SqsOp(x, conf)) + OptionList(UserDefinedOp(x, conf))
  }

  /** The ops before the walk: the exit handlers that are configured, then
      the sensor op when the flow has an `s3_sensor` decorator. */
  function PreludeOps(x: ExitSettings, conf: map<string, string>, sensor: bool): (r: seq<Op>)
    ensures forall i :: 0 <= i < |r| ==> !r[i].StepOp? && r[i].deps == {} && r[i].loop.None?
    ensures sensor <==> |r| > 0 && r[|r| - 1].SensorOp?
    ensures (exists i :: 0 <= i < |r| && r[i].ExitHandlerOp?) <==> x.notify || Truthy(x.sqsUrlOnError) || x.userDefined
  {
    var handlers := ExitHandlerOps(x, conf);
    PreludeFacts(handlers, sensor);
    handlers + SensorOps(sensor)
  }

  /** The sensor op, when there is one. */
  function SensorOps(sensor: bool): (r: seq<Op>)
    ensures |r| <= 1 && (sensor <==> |r| == 1)
    ensures forall i :: 0 <= i < |r| ==> r[i] == SensorOp({}, None)
  {
    if sensor then [SensorOp({}, None)] else []
  }

  /** The prelude is the exit-handler ops followed by the sensor op. */
  lemma PreludeFacts(handlers: seq<Op>, sensor: bool)
    requires forall i :: 0 <= i < |handlers| ==> handlers[i].ExitHandlerOp? && handlers[i].deps == {} && handlers[i].loop.None?
    ensures var r := handlers + SensorOps(sensor);
            && (forall i :: 0 <= i < |r| ==> !r[i].StepOp? && r[i].deps == {} && r[i].loop.None?)
            && (sensor <==> |r| > 0 && r[|r| - 1].SensorOp?)
            && ((exists i :: 0 <= i < |r| && r[i].ExitHandlerOp?) <==> handlers != [])
  {
    var r := handlers + SensorOps(sensor);
    assert forall i :: 0 <= i < |handlers| ==> r[i] == handlers[i];
    assert forall i :: |handlers| <= i < |r| ==> r[i].SensorOp?;
    assert handlers != [] ==> r[0].ExitHandlerOp?;
  }

  /** Every step compiled has exactly one step op: `visited` names it, and
      no other op runs the step. */
  predicate StepOpsIndexed(c: Compiled) {
    && (forall s :: s in c.visited ==> c.visited[s] < |c.ops| && c.ops[c.visited[s]].StepOp? && c.ops[c.visited[s]].step == s)
    && (forall i :: 0 <= i < |c.ops| && c.ops[i].StepOp? ==> c.ops[i].step in c.visited && c.visited[c.ops[i].step] == i)
  }

  /** `start` is compiled at the top level, outside every loop and with no
      split index. */
  predicate StartsAtTop(c: Compiled) {
    && "start" in c.visited && c.visited["start"] < |c.ops|
    && c.ops[c.visited["start"]].StepOp? && c.ops[c.visited["start"]].step == "start"
    && c.ops[c.visited["start"]].split == NoIndex && c.ops[c.visited["start"]].loop.None?
  }

  /** For every edge of the graph both ends are compiled and the child's step
      op depends on the parent's. */
  ghost predicate EdgesWired(g: Graph, c: Compiled) {
    forall ch, p :: IsEdge(g, ch, p) ==>
      ch in c.visited && p in c.visited && c.visited[ch] < |c.ops| && c.visited[p] in c.ops[c.visited[ch]].deps
  }

  /** The step op of `start` depends on a sensor op. */
  predicate WaitsForSensor(c: Compiled) {
    && "start" in c.visited && c.visited["start"] < |c.ops|
    && exists i :: 0 <= i < |c.ops| && c.ops[i].SensorOp? && i in c.ops[c.visited["start"]].deps
  }

  /** The walk from `start` at the top level, after the prelude ops. */
  ghost function StartWalk(g: Graph, comps: map<string, Component>, prelude: seq<Op>): Result<State>
    requires Compiles(g, comps)
    requires forall i :: 0 <= i < |prelude| ==> !prelude[i].StepOp? && prelude[i].deps == {} && prelude[i].loop.None?
  {
    var st0 := State(prelude, [], map[], map[]);
    InitiallyReady(g, st0);
    Walk(g, comps, "start", NoIndex, None, None, map[], st0)
  }

  /** How compiling a flow can fail: a step's component cannot be built, the
      walk from `start` fails, or it leaves an end of some edge uncompiled,
      which the wiring pass then fails to look up. */
  ghost predicate CompileFails(g: Graph, taskIds: map<string, string>, x: ExitSettings, conf: map<string, string>, sensor: bool)
    requires WellFormed(g) && g.nodes.Keys <= taskIds.Keys
  {
    || !ComponentsBuild(g, taskIds)
    || (var comps := BuiltComponents(g, taskIds);
        BuiltComponentsCompile(g, comps, taskIds);
        var w := StartWalk(g, comps, PreludeOps(x, conf, sensor));
        w.Err? || !EdgesVisited(g, w.value))
  }

  /** Once every component builds, compilation fails exactly when the walk
      or the wiring does. */
  lemma CompileFailsAfterBuild(g: Graph, taskIds: map<string, string>, comps: map<string, Component>, x: ExitSettings, conf: map<string, string>, sensor: bool)
    requires WellFormed(g) && g.nodes.Keys <= taskIds.Keys && Compiles(g, comps)
    requires comps.Keys == g.nodes.Keys
    requires forall n {:trigger Built(g, taskIds, n, comps[n])} :: n in comps ==> Built(g, taskIds, n, comps[n])
    ensures ComponentsBuild(g, taskIds)
    ensures var w := StartWalk(g, comps, PreludeOps(x, conf, sensor));
            CompileFails(g, taskIds, x, conf, sensor) <==> w.Err? || !EdgesVisited(g, w.value)
  {
    BuiltAreBuiltComponents(g, taskIds, comps);
  }

  /** The pipeline function: components for every step, the exit-handler and
      sensor ops, the walk from `start` at the top level, the wiring of the
      graph's edges, and finally `start` made to wait for the sensor. */
  method CompilePipeline(g: Graph, taskIds: map<string, string>, x: ExitSettings, conf: map<string, string>, sensor: bool)
    returns (r: Result<Compiled>)
    requires WellFormed(g) && StepsListed(g) && g.nodes.Keys <= taskIds.Keys
    ensures r.Ok? ==> (r.value.exitHandlerCreated <==> x.notify || Truthy(x.sqsUrlOnError) || x.userDefined)
    ensures r.Ok? ==> StepOpsIndexed(r.value) && StartsAtTop(r.value) && EdgesWired(g, r.value)
    ensures r.Ok? && sensor ==> WaitsForSensor(r.value)
    ensures r.Err? <==> CompileFails(g, taskIds, x, conf, sensor)
  {
    var comps :- BuildComponents(g, taskIds);
    BuiltComponentsCompile(g, comps, taskIds);
    CompileFailsAfterBuild(g, taskIds, comps, x, conf, sensor);
    var prelude := PreludeOps(x, conf, sensor);
    r := WalkAndWire(g, comps, prelude, sensor, NotifyOp(x, conf).Some? || SqsOp(x, conf).Some? || UserDefinedOp(x, conf).Some?);
  }

  /** The walk from `start` over the prelude ops, the wiring, and the sensor
      dependency of `start`. */
  method WalkAndWire(g: Graph, comps: map<string, Component>, prelude: seq<Op>, sensor: bool, exitHandler: bool)
    returns (r: Result<Compiled>)
    requires Compiles(g, comps) && StepsListed(g)
    requires forall i :: 0 <= i < |prelude| ==> !prelude[i].StepOp? && prelude[i].deps == {} && prelude[i].loop.None?
    requires sensor ==> |prelude| > 0 && prelude[|prelude| - 1].SensorOp?
    ensures r.Ok? ==> StepOpsIndexed(r.value) && StartsAtTop(r.value) && EdgesWired(g, r.value)
    ensures r.Ok? && sensor ==> WaitsForSensor(r.value)
    ensures r.Ok? ==> r.value.exitHandlerCreated == exitHandler
    ensures r.Err? <==> StartWalk(g, comps, prelude).Err? || !EdgesVisited(g, StartWalk(g, comps, prelude).value)
  {
    var w := WalkFromStart(g, comps, prelude);
    if w.Err? {
      return Err(w.error);
    }
    r := WireWalked(g, w.value, sensor, |prelude| - 1, exitHandler);
  }

  /** The walk from `start`, after the prelude ops. */
  method WalkFromStart(g: Graph, comps: map<string, Component>, prelude: seq<Op>) returns (r: Result<State>)
    requires Compiles(g, comps)
    requires forall i :: 0 <= i < |prelude| ==> !prelude[i].StepOp? && prelude[i].deps == {} && prelude[i].loop.None?
    ensures r.Ok? ==> StateOk(g, r.value) && CompiledAs(r.value, "start", NoIndex, None, {})
    ensures r.Ok? ==> |prelude| <= |r.value.ops| && forall i :: 0 <= i < |prelude| ==> r.value.ops[i] == prelude[i]
    ensures r.Ok? && 0 < |prelude| ==> r.value.ops[|prelude| - 1] == prelude[|prelude| - 1]
    ensures r == StartWalk(g, comps, prelude)
  {
    var st0 := State(prelude, [], map[], map[]);
    InitiallyReady(g, st0);
    var st :- Walk(g, comps, "start", NoIndex, None, None, map[], st0);
    assert forall i :: 0 <= i < |prelude| ==> st.ops[..|prelude|][i] == st.ops[i];
    return Ok(st);
  }

  /** The wiring after the walk, then the sensor dependency of `start`. */
  method WireWalked(g: Graph, st: State, sensor: bool, sensorId: int, exitHandler: bool) returns (r: Result<Compiled>)
    requires WellFormed(g) && StepsListed(g) && StateOk(g, st)
    requires CompiledAs(st, "start", NoIndex, None, {})
    requires sensor ==> 0 <= sensorId < |st.ops| && st.ops[sensorId].SensorOp?
    ensures r.Ok? ==> StepOpsIndexed(r.value) && StartsAtTop(r.value) && EdgesWired(g, r.value)
    ensures r.Ok? && sensor ==> WaitsForSensor(r.value)
    ensures r.Ok? ==> r.value.exitHandlerCreated == exitHandler
    ensures r.Err? <==> !EdgesVisited(g, st)
  {
    var ops :- Wire(g, st);
    var ops' := if sensor then ops[st.visited["start"] := AddDep(ops[st.visited["start"]], sensorId)] else ops;
    CompiledFacts(g, st, ops, ops', sensor, sensorId);
    return Ok(Compiled(ops', st.loops, st.visited, st.volumeOps, exitHandler));
  }

  /** The state the walk starts from: only the prelude ops, nothing compiled. */
  lemma InitiallyReady(g: Graph, st: State)
    requires st.loops == [] && st.visited == map[] && st.volumeOps == map[]
    requires forall i :: 0 <= i < |st.ops| ==> !st.ops[i].StepOp? && st.ops[i].deps == {} && st.ops[i].loop.None?
    ensures Ready(g, st, NoIndex, None, None)
  {
  }

  /** The facts of the compiled pipeline, from those of the walk and the
      wiring. */
  lemma CompiledFacts(g: Graph, st: State, ops: seq<Op>, ops': seq<Op>, sensor: bool, sensorId: int)
    requires StateOk(g, st) && Rewired(g, st, ops) && EdgesVisited(g, st)
    requires CompiledAs(st, "start", NoIndex, None, {})
    requires sensor ==> 0 <= sensorId < |st.ops| && st.ops[sensorId].SensorOp?
    requires ops' == if sensor then ops[st.visited["start"] := AddDep(ops[st.visited["start"]], sensorId)] else ops
    ensures var c := Compiled(ops', st.loops, st.visited, st.volumeOps, false);
            && StepOpsIndexed(c) && StartsAtTop(c) && EdgesWired(g, c)
            && (sensor ==> WaitsForSensor(c))
  {
    WiredEdges(g, st, ops);
    assert DepsOnlyChanged(st, ops');
    forall i | 0 <= i < |ops'| && ops'[i].StepOp?
      ensures ops'[i].step in st.visited && st.visited[ops'[i].step] == i
    {
      assert OpOk(g, st, i);
    }
    if sensor {
      assert ops'[sensorId].SensorOp? && sensorId in ops'[st.visited["start"]].deps;
    }
  }

  /** Wired ops make the step op of every step depend on those of its parents. */
  lemma WiredEdges(g: Graph, st: State, ops: seq<Op>)
    requires StateOk(g, st) && Rewired(g, st, ops) && EdgesVisited(g, st)
    ensures forall c, p :: IsEdge(g, c, p) ==> st.visited[p] in ops[st.visited[c]].deps
  {
    forall c, p | IsEdge(g, c, p)
      ensures st.visited[p] in ops[st.visited[c]].deps
    {
      assert EdgeDep(st, c, p, st.visited[c], st.visited[p]);
    }
  }

  // ---------------------------------------------------------------------------
  // When compilation succeeds
  // ---------------------------------------------------------------------------

  /** A flow fails to compile only when a step's component cannot be built,
      when some step's ops cannot be emitted, or when the walk from `start`
      leaves an end of an edge uncompiled. */
  lemma CompileFailsFor(g: Graph, taskIds: map<string, string>, x: ExitSettings, conf: map<string, string>, sensor: bool)
    requires WellFormed(g) && g.nodes.Keys <= taskIds.Keys
    requires CompileFails(g, taskIds, x, conf, sensor)
    ensures || !ComponentsBuild(g, taskIds)
            || (BuiltComponentsCompile(g, BuiltComponents(g, taskIds), taskIds);
                || SomeEmitFails(g, BuiltComponents(g, taskIds), {})
                || (var w := StartWalk(g, BuiltComponents(g, taskIds), PreludeOps(x, conf, sensor));
                    w.Ok? && !EdgesVisited(g, w.value)))
  {
    if ComponentsBuild(g, taskIds) {
      var comps := BuiltComponents(g, taskIds);
      BuiltComponentsCompile(g, comps, taskIds);
      var st0 := State(PreludeOps(x, conf, sensor), [], map[], map[]);
      InitiallyReady(g, st0);
      WalkFailsOnlyAtEmit(g, comps, "start", NoIndex, None, None, map[], st0);
    }
  }

  /** The flow `start` → `end` with no decorators. */
  const TwoStepFlow := Graph(
    map["start" := Node("start", Start, ["end"], [], None, [], []),
        "end" := Node("end", End, [], ["start"], None, [], [])],
    ["start", "end"])

  const NoExitHandler := ExitSettings(false, None, None, None, None, false)

  /** A step with no decorators builds a component with no preceding
      component and no resource requirements. */
  lemma UndecoratedStepBuilds(n: string, taskId: string)
    ensures BuildComponent(n, taskId, []).Ok?
    ensures BuildComponent(n, taskId, []).value.precedingFunc.None?
    ensures BuildComponent(n, taskId, []).value.resourceRequirements == map[]
  {
    assert ResourceRequirements([]) == Ok(map[]);
    assert RetryBackoffFactor([]) == Ok(None);
    BuildComponentDerives(n, taskId, []);
  }

  /** The shape of `start` → `end`. */
  lemma TwoStepFlowShape()
    ensures WellFormed(TwoStepFlow) && StepsListed(TwoStepFlow)
    ensures forall n :: n in TwoStepFlow.nodes <==> n == "start" || n == "end"
    ensures TwoStepFlow.nodes["start"].outFuncs == ["end"] && TwoStepFlow.nodes["start"].inFuncs == []
    ensures TwoStepFlow.nodes["end"].nodeType == End && TwoStepFlow.nodes["end"].outFuncs == []
    ensures forall n :: n in TwoStepFlow.nodes ==> TwoStepFlow.nodes[n].decorators == []
  {
  }

  /** Components for `start` → `end` with no preceding component and no
      volume: both steps can be emitted. */
  lemma TwoStepFlowEmits(comps: map<string, Component>)
    requires Compiles(TwoStepFlow, comps)
    requires forall n :: n in comps ==> comps[n].precedingFunc.None? && comps[n].resourceRequirements == map[]
    ensures forall m :: m in TwoStepFlow.nodes ==> !EmitFails(TwoStepFlow, comps, m)
  {
    var g := TwoStepFlow;
    forall m | m in g.nodes
      ensures !EmitFails(g, comps, m)
    {
      assert !ChildHasPreceding(g, comps, m);
    }
  }

  /** The walk from `start` over `start` → `end` compiles both steps. */
  lemma TwoStepFlowWalks(comps: map<string, Component>, prelude: seq<Op>)
    requires Compiles(TwoStepFlow, comps)
    requires forall n :: n in comps ==> comps[n].precedingFunc.None? && comps[n].resourceRequirements == map[]
    requires forall i :: 0 <= i < |prelude| ==> !prelude[i].StepOp? && prelude[i].deps == {} && prelude[i].loop.None?
    ensures StartWalk(TwoStepFlow, comps, prelude).Ok?
    ensures "start" in StartWalk(TwoStepFlow, comps, prelude).value.visited
    ensures "end" in StartWalk(TwoStepFlow, comps, prelude).value.visited
  {
    var g := TwoStepFlow;
    TwoStepFlowShape();
    var st0 := State(prelude, [], map[], map[]);
    InitiallyReady(g, st0);
    TwoStepFlowEmits(comps);
    WalkFailsOnlyAtEmit(g, comps, "start", NoIndex, None, None, map[], st0);
    var w := Walk(g, comps, "start", NoIndex, None, None, map[], st0);
    assert w == WalkNew(g, comps, "start", NoIndex, None, None, map[], st0);
    assert StopAt(g, ["end"], 0) == 1;
  }

  /** Both ends of the one edge of `start` → `end` compiled: every edge is. */
  lemma TwoStepFlowEdges(st: State)
    requires "start" in st.visited && "end" in st.visited
    ensures EdgesVisited(TwoStepFlow, st)
  {
    TwoStepFlowShape();
    forall c, p | IsEdge(TwoStepFlow, c, p)
      ensures c in st.visited && p in st.visited
    {
      assert c == "start" || c == "end";
      if c == "end" {
        assert TwoStepFlow.nodes["end"].inFuncs == ["start"];
      }
    }
  }

  /** The components of `start` → `end`, task ids 1 and 2. */
  lemma TwoStepFlowBuilds()
    ensures ComponentsBuild(TwoStepFlow, map["start" := "1", "end" := "2"])
    ensures var comps := BuiltComponents(TwoStepFlow, map["start" := "1", "end" := "2"]);
            forall n :: n in comps ==> comps[n].precedingFunc.None? && comps[n].resourceRequirements == map[]
  {
    var taskIds := map["start" := "1", "end" := "2"];
    TwoStepFlowShape();
    UndecoratedStepBuilds("start", "1");
    UndecoratedStepBuilds("end", "2");
    assert ComponentsBuild(TwoStepFlow, taskIds);
    var comps := BuiltComponents(TwoStepFlow, taskIds);
    forall n | n in comps
      ensures comps[n].precedingFunc.None? && comps[n].resourceRequirements == map[]
    {
      assert Built(TwoStepFlow, taskIds, n, comps[n]);
      if n == "start" {
        assert BuildComponent("start", "1", []) == Ok(comps[n]);
      } else {
        assert BuildComponent("end", "2", []) == Ok(comps[n]);
      }
    }
  }

  /** Scenario: the flow `start` → `end` with an S3 sensor and no exit handler
      compiles, so the pipeline function returns both step ops, `end` after
      `start` and `start` after the sensor. */
  lemma TwoStepFlowWithSensorCompiles()
    ensures WellFormed(TwoStepFlow) && StepsListed(TwoStepFlow)
    ensures !CompileFails(TwoStepFlow, map["start" := "1", "end" := "2"], NoExitHandler, map[], true)
  {
    var taskIds := map["start" := "1", "end" := "2"];
    TwoStepFlowShape();
    TwoStepFlowBuilds();
    var comps := BuiltComponents(TwoStepFlow, taskIds);
    BuiltComponentsCompile(TwoStepFlow, comps, taskIds);
    var prelude := PreludeOps(NoExitHandler, map[], true);
    TwoStepFlowWalks(comps, prelude);
    TwoStepFlowEdges(StartWalk(TwoStepFlow, comps, prelude).value);
  }

}
