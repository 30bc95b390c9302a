/** The compilation of a flow graph into pipeline ops (`build_kfp_dag` and the
    edge-wiring pass after it). Ops are numbered in emission order; a
    `ParallelFor` is a `Loop` numbered in creation order, and every op records
    the innermost loop it was created in. */
module DagWalk {
  import opened Results
  import opened Decorators
  import opened FlowGraph
  import opened StepOps
  import opened WalkState

  /** Some successor of `n` has a preceding component. */
  predicate ChildHasPreceding(g: Graph, comps: map<string, Component>, n: string)
    requires Compiles(g, comps) && n in g.nodes
  {
    exists c :: c in g.nodes[n].outFuncs && comps[c].precedingFunc.Some?
  }

  /** The op id of the preceding-component op emitted after step `n` when the
      walk reaches it in state `st`. */
  function HookOf(g: Graph, comps: map<string, Component>, st: State, n: string): Option<nat>
    requires Compiles(g, comps) && n in g.nodes
  {
    if ChildHasPreceding(g, comps, n) then Some(|st.ops| + 1) else None
  }

  /** The dictionary of the preceding op's outputs handed to the successors:
      each named output, or the op's single output when it declares one. */
  function OutputsDict(hook: nat, outputs: seq<string>): (m: map<string, OutputRef>)
    ensures m.Keys == set o | o in outputs
    ensures |outputs| > 1 ==> forall o :: o in m ==> m[o] == Output(hook, o)
    ensures |outputs| <= 1 ==> forall o :: o in m ==> m[o] == SingleOutput(hook)
  {
    map o | o in outputs :: if |outputs| > 1 then Output(hook, o) else SingleOutput(hook)
  }

  /** The container a step op runs. */
  function StepOpSpec(g: Graph, comps: map<string, Component>, cfg: Settings, op: Op): StepSpec
    requires Compiles(g, comps) && op.StepOp? && op.step in g.nodes
  {
    StepSpecOf(g, op.step, comps[op.step], cfg, op.split, op.precedingInputs, op.precedingOutputsDict, op.volume)
  }

  /** The arguments of the preceding op: the named outputs of step op `stepId`. */
  function HookArgs(stepId: nat, inputs: seq<string>): (args: seq<OutputRef>)
    ensures |args| == |inputs|
    ensures forall j :: 0 <= j < |inputs| ==> args[j] == Output(stepId, inputs[j])
  {
    seq(|inputs|, j requires 0 <= j < |inputs| => Output(stepId, inputs[j]))
  }

  /** The state after compiling one step, the id of the preceding op handed to
      its successors, and that op's outputs. */
  datatype Emission = Emission(state: State, next: Option<nat>, nextOutputs: map<string, OutputRef>)

  /** The first successor's preceding function is called without a check,
      and a volume needs its mount directory. */
  predicate EmitFails(g: Graph, comps: map<string, Component>, n: string)
    requires Compiles(g, comps) && n in g.nodes
  {
    || (ChildHasPreceding(g, comps, n) && comps[g.nodes[n].outFuncs[0]].precedingFunc.None?)
    || ("volume" in comps[n].resourceRequirements && "volume_dir" !in comps[n].resourceRequirements)
  }

  /** Some step outside `done` cannot be emitted: the only way the walk from
      a state that compiled `done` can fail. */
  predicate SomeEmitFails(g: Graph, comps: map<string, Component>, done: set<string>)
    requires Compiles(g, comps)
  {
    exists m :: m in g.nodes && m !in done && EmitFails(g, comps, m)
  }

  /** A failing step not compiled in a later state was not compiled earlier. */
  lemma SomeEmitFailsEarlier(g: Graph, comps: map<string, Component>, a: State, b: State)
    requires Compiles(g, comps) && Grows(a, b)
    ensures SomeEmitFails(g, comps, b.visited.Keys) ==> SomeEmitFails(g, comps, a.visited.Keys)
  {
  }

  /** The ops `build_kfp_dag` emits for a new step `n`, or the error it
      raises doing so. */
  function EmitStep(
    g: Graph, comps: map<string, Component>, n: string,
    split: SplitIndexes, ctx: Option<nat>, preceding: Option<nat>,
    precedingOutputs: map<string, OutputRef>, st: State): (r: Result<Emission>)
    requires Compiles(g, comps) && n in g.nodes && n !in st.visited
    requires Ready(g, st, split, ctx, preceding)
    ensures r.Err? <==> EmitFails(g, comps, n)
    ensures r.Ok? ==> r.value == Emitted(g, comps, n, split, ctx, preceding, precedingOutputs, st)
  {
    var node := g.nodes[n];
    var rr := comps[n].resourceRequirements;
    if ChildHasPreceding(g, comps, n) && comps[node.outFuncs[0]].precedingFunc.None? then Err(PrecedingNotCallable(node.outFuncs[0]))
    else if "volume" in rr && "volume_dir" !in rr then Err(MissingKey("volume_dir"))
    else Ok(Emitted(g, comps, n, split, ctx, preceding, precedingOutputs, st))
  }

  /** The ops emitted for a new step `n`: its step op, then the preceding op
      of its successors (if one of them has a preceding component), then its
      volume op (if it asks for a volume). The preceding op calls the first
      successor's preceding function on the step's outputs and runs after the
      step; its outputs are what the successors receive. */
  function Emitted(
    g: Graph, comps: map<string, Component>, n: string,
    split: SplitIndexes, ctx: Option<nat>, preceding: Option<nat>,
    precedingOutputs: map<string, OutputRef>, st: State): (e: Emission)
    requires Compiles(g, comps) && n in g.nodes && n !in st.visited
    requires Ready(g, st, split, ctx, preceding) && !EmitFails(g, comps, n)
    ensures StateOk(g, e.state) && DepsPrecede(e.state.ops) && Grows(st, e.state)
    ensures e.state.visited == st.visited[n := |st.ops|] && e.state.loops == st.loops
    ensures CompiledAs(e.state, n, split, ctx, DepsOf(preceding))
    ensures e.next == HookOf(g, comps, st, n)
    ensures n in e.state.volumeOps <==> "volume" in comps[n].resourceRequirements
    ensures e.next.Some? ==>
              |st.ops| + 1 < |e.state.ops| && e.state.ops[|st.ops| + 1] == HookOp(g, comps, n, |st.ops|, ctx).value
    ensures e.nextOutputs == HookOutputs(g, comps, n, |st.ops| + 1)
  {
    var stepId: nat := |st.ops|;
    var hookOp := HookOp(g, comps, n, stepId, ctx);
    var volumeOp := NewVolumeOp(n, comps[n].resourceRequirements, ctx);
    var st' := Append(g, st, n, NewStepOp(g, comps, n, split, ctx, preceding, precedingOutputs, stepId), hookOp, volumeOp);
    Emission(st', HookOf(g, comps, st, n), HookOutputs(g, comps, n, stepId + 1))
  }

  /** The step op of a new step `n` emitted as op `stepId`: the preceding
      inputs are those of its first successor when a successor has a
      preceding component, and a volume is mounted from the volume op that
      follows the step's other ops. */
  function NewStepOp(
    g: Graph, comps: map<string, Component>, n: string,
    split: SplitIndexes, ctx: Option<nat>, preceding: Option<nat>,
    precedingOutputs: map<string, OutputRef>, stepId: nat): (op: Op)
    requires Compiles(g, comps) && n in g.nodes && !EmitFails(g, comps, n)
    ensures op.StepOp? && op.step == n && op.split == split && op.loop == ctx && op.deps == DepsOf(preceding)
    ensures op.volume.Some? <==> "volume" in comps[n].resourceRequirements
  {
    var rr := comps[n].resourceRequirements;
    var hooked := ChildHasPreceding(g, comps, n);
    var inputs := if hooked then comps[g.nodes[n].outFuncs[0]].precedingInputs else [];
    var volumeId := if hooked then stepId + 2 else stepId + 1;
    var mount := if "volume" in rr then Some(VolumeMount(rr["volume_dir"], volumeId)) else None;
    StepOp(n, split, inputs, precedingOutputs, mount, DepsOf(preceding), ctx)
  }

  /** The preceding op emitted after step op `stepId` of step `n`: it calls
      the first successor's preceding function on the step's outputs and runs
      after the step, in the same loop. */
  function HookOp(g: Graph, comps: map<string, Component>, n: string, stepId: nat, ctx: Option<nat>): (op: Option<Op>)
    requires Compiles(g, comps) && n in g.nodes && !EmitFails(g, comps, n)
    ensures op.Some? <==> ChildHasPreceding(g, comps, n)
    ensures op.Some? ==> op.value.PrecedingOp? && op.value.deps == {stepId} && op.value.loop == ctx
    ensures op.Some? ==> op.value.func == comps[g.nodes[n].outFuncs[0]].precedingFunc.value
  {
    if ChildHasPreceding(g, comps, n) then
      var first := comps[g.nodes[n].outFuncs[0]];
      Some(PrecedingOp(first.precedingFunc.value, HookArgs(stepId, first.precedingInputs), {stepId}, ctx))
    else None
  }

  /** The volume op of a step asking for a volume: a claim named after the
      step, of the requested size and storage class. */
  function NewVolumeOp(n: string, rr: map<string, string>, ctx: Option<nat>): (op: Option<Op>)
    ensures op.Some? <==> "volume" in rr
    ensures op.Some? ==> op.value.VolumeOp? && op.value.deps == {} && op.value.loop == ctx
    ensures op.Some? ==> op.value.claim.size == rr["volume"] && op.value.claim.opName == "create-" + n + "-volume"
  {
    if "volume" in rr then
      Some(VolumeOp(VolumeClaim("create-" + n + "-volume", rr["volume"], if "volume_type" in rr then Some(rr["volume_type"]) else None), {}, ctx))
    else None
  }

  /** The outputs of the preceding op `hook` emitted after step `n`, as its
      successors receive them: none when no successor has a preceding component. */
  function HookOutputs(g: Graph, comps: map<string, Component>, n: string, hook: nat): (m: map<string, OutputRef>)
    requires Compiles(g, comps) && n in g.nodes
    ensures !ChildHasPreceding(g, comps, n) ==> m == map[]
    ensures ChildHasPreceding(g, comps, n) ==> m.Keys == set o | o in comps[g.nodes[n].outFuncs[0]].precedingOutputs
  {
    if ChildHasPreceding(g, comps, n) then OutputsDict(hook, comps[g.nodes[n].outFuncs[0]].precedingOutputs) else map[]
  }

  function OptionOps(op: Option<Op>): seq<Op> {
    if op.Some? then [op.value] else []
  }

  /** The state after appending a new step's op, its optional preceding op
      and its optional volume op. */
  function Append(g: Graph, st: State, n: string, stepOp: Op, hookOp: Option<Op>, volumeOp: Option<Op>): (r: State)
    requires StateOk(g, st) && DepsPrecede(st.ops) && n in g.nodes && n !in st.visited
    requires stepOp.StepOp? && stepOp.step == n && IndexMatchesLoop(stepOp.split, stepOp.loop)
    requires stepOp.loop.Some? ==> stepOp.loop.value < |st.loops|
    requires forall d :: d in stepOp.deps ==> d < |st.ops|
    requires hookOp.Some? ==> !hookOp.value.StepOp? && hookOp.value.deps == {|st.ops|} && hookOp.value.loop == stepOp.loop
    requires volumeOp.Some? ==> volumeOp.value.VolumeOp? && volumeOp.value.deps == {} && volumeOp.value.loop == stepOp.loop
    ensures StateOk(g, r) && DepsPrecede(r.ops) && Grows(st, r)
    ensures r.loops == st.loops && r.visited == st.visited[n := |st.ops|]
    ensures n in r.volumeOps <==> volumeOp.Some?
    ensures |st.ops| < |r.ops| && r.ops[|st.ops|] == stepOp
    ensures hookOp.Some? ==> |st.ops| + 1 < |r.ops| && r.ops[|st.ops| + 1] == hookOp.value
  {
    var tail := [stepOp] + OptionOps(hookOp) + OptionOps(volumeOp);
    TailShape(|st.ops|, stepOp, hookOp, volumeOp, tail);
    var volumeIndex := |st.ops| + 1 + |OptionOps(hookOp)|;
    var r := State(
      st.ops + tail,
      st.loops,
      st.visited[n := |st.ops|],
      if volumeOp.Some? then st.volumeOps[n := volumeIndex] else st.volumeOps);
    AppendGrows(st, n, tail, r);
    AppendOk(g, st, n, tail, r);
    r
  }

  /** The shape of the ops appended for one step: the step op first, then ops
      of other kinds in the step op's loop, each depending only on earlier ops. */
  lemma TailShape(k: nat, stepOp: Op, hookOp: Option<Op>, volumeOp: Option<Op>, tail: seq<Op>)
    requires tail == [stepOp] + OptionOps(hookOp) + OptionOps(volumeOp)
    requires forall d :: d in stepOp.deps ==> d < k
    requires hookOp.Some? ==> !hookOp.value.StepOp? && hookOp.value.deps == {k} && hookOp.value.loop == stepOp.loop
    requires volumeOp.Some? ==> volumeOp.value.VolumeOp? && volumeOp.value.deps == {} && volumeOp.value.loop == stepOp.loop
    ensures |tail| == 1 + |OptionOps(hookOp)| + |OptionOps(volumeOp)| && tail[0] == stepOp
    ensures hookOp.Some? ==> tail[1] == hookOp.value
    ensures volumeOp.Some? ==> tail[|tail| - 1] == volumeOp.value
    ensures forall j :: 0 < j < |tail| ==> !tail[j].StepOp? && tail[j].loop == stepOp.loop
    ensures forall j, d :: 0 <= j < |tail| && d in tail[j].deps ==> d < k + j
  {
  }

  /** Appending ops that depend only on earlier ops keeps dependencies
      backwards, and changes nothing registered before. */
  lemma AppendGrows(st: State, n: string, tail: seq<Op>, r: State)
    requires DepsPrecede(st.ops) && n !in st.visited
    requires forall j, d :: 0 <= j < |tail| && d in tail[j].deps ==> d < |st.ops| + j
    requires r.ops == st.ops + tail && r.loops == st.loops && r.visited == st.visited[n := |st.ops|]
    requires forall s :: s in st.volumeOps ==> s in r.volumeOps && r.volumeOps[s] == st.volumeOps[s]
    ensures DepsPrecede(r.ops) && Grows(st, r)
  {
    assert r.ops[..|st.ops|] == st.ops;
    assert r.loops[..|st.loops|] == st.loops;
  }

  lemma AppendOk(g: Graph, st: State, n: string, tail: seq<Op>, r: State)
    requires StateOk(g, st) && n in g.nodes && n !in st.visited
    requires |tail| > 0 && tail[0].StepOp? && tail[0].step == n && IndexMatchesLoop(tail[0].split, tail[0].loop)
    requires tail[0].loop.Some? ==> tail[0].loop.value < |st.loops|
    requires forall j :: 0 < j < |tail| ==> !tail[j].StepOp? && tail[j].loop == tail[0].loop
    requires r.ops == st.ops + tail && r.loops == st.loops && r.visited == st.visited[n := |st.ops|]
    requires forall s :: s in r.volumeOps ==>
               if s in st.volumeOps then r.volumeOps[s] == st.volumeOps[s]
               else s == n && |st.ops| < r.volumeOps[s] < |r.ops| && r.ops[r.volumeOps[s]].VolumeOp?
    ensures StateOk(g, r)
  {
    var k := |st.ops|;
    forall i | 0 <= i < |r.ops|
      ensures OpOk(g, r, i) && r.ops[i] == if i < k then st.ops[i] else tail[i - k]
    {
      if i < k {
        assert OpOk(g, st, i);
      }
    }
    forall l | 0 <= l < |r.loops|
      ensures LoopOk(g, r, l)
    {
      assert LoopOk(g, st, l);
    }
  }

  /** `build_kfp_dag(node, split, preceding, outputs)` from state `st`. A
      compiled step returns at once; otherwise the step is emitted, or the
      error raised emitting it is returned. */
  function Walk(
    g: Graph, comps: map<string, Component>, n: string,
    split: SplitIndexes, ctx: Option<nat>, preceding: Option<nat>,
    precedingOutputs: map<string, OutputRef>, st: State): (r: Result<State>)
    requires Compiles(g, comps) && n in g.nodes
    requires Ready(g, st, split, ctx, preceding)
    ensures r.Ok? ==> StateOk(g, r.value) && DepsPrecede(r.value.ops) && Grows(st, r.value) && n in r.value.visited
    ensures n in st.visited ==> r == Ok(st)
    ensures r.Ok? && n !in st.visited ==>
              r.value.visited[n] == |st.ops| && CompiledAs(r.value, n, split, ctx, DepsOf(preceding))
    ensures r.Ok? && RegionsWellFormed(g) ==> JoinsFollowTheirForeach(g, st, r.value, {n})
    decreases Unvisited(g, st), 0, 1, 0
  {
    if n in st.visited then
      GrowsRefl(st);
      Ok(st)
    else
      match EmitStep(g, comps, n, split, ctx, preceding, precedingOutputs, st)
      case Err(e) => Err(e)
      case Ok(_) => WalkNew(g, comps, n, split, ctx, preceding, precedingOutputs, st)
  }

  /** The walk at a step `n` not compiled yet whose ops can be emitted: emit
      them, then go on from `n`. */
  function WalkNew(
    g: Graph, comps: map<string, Component>, n: string,
    split: SplitIndexes, ctx: Option<nat>, preceding: Option<nat>,
    precedingOutputs: map<string, OutputRef>, st: State): (r: Result<State>)
    requires Compiles(g, comps) && n in g.nodes && n !in st.visited
    requires Ready(g, st, split, ctx, preceding) && !EmitFails(g, comps, n)
    ensures r.Ok? ==> StateOk(g, r.value) && DepsPrecede(r.value.ops) && Grows(st, r.value) && n in r.value.visited
    ensures r.Ok? ==> r.value.visited[n] == |st.ops| && CompiledAs(r.value, n, split, ctx, DepsOf(preceding))
    ensures r.Ok? && RegionsWellFormed(g) ==> JoinsFollowTheirForeach(g, st, r.value, {n})
    ensures r.Ok? ==>
              SuccessorsCompiled(g, r.value, n, |st.ops|, |st.loops|, st.visited.Keys + {n}, split, ctx, HookOf(g, comps, st, n))
    decreases Unvisited(g, st), 0, 0, 0
  {
    var e := Emitted(g, comps, n, split, ctx, preceding, precedingOutputs, st);
    UnvisitedShrinks(g, st, e.state, n);
    var r :- WalkFrom(g, comps, n, split, ctx, e.next, e.nextOutputs, e.state);
    WalkFacts(g, n, split, ctx, preceding, st, e.state, r);
    SuccessorsFacts(g, n, split, ctx, e.next, st, e.state, r);
    Ok(r)
  }

  /** The walk after compiling step `n`: a foreach compiles its successor
      inside a new loop over its `foreach_splits` output and then its
      matching join outside it, while any other step compiles its successors
      in order, stopping at the first one that joins a foreach. */
  function WalkFrom(
    g: Graph, comps: map<string, Component>, n: string,
    split: SplitIndexes, ctx: Option<nat>, hook: Option<nat>,
    hookOutputs: map<string, OutputRef>, st1: State): (r: Result<State>)
    requires Compiles(g, comps) && n in g.nodes && n in st1.visited
    requires Ready(g, st1, split, ctx, hook) && st1.ops[st1.visited[n]].loop == ctx
    ensures r.Ok? ==> StateOk(g, r.value) && DepsPrecede(r.value.ops) && Grows(st1, r.value)
    ensures r.Ok? && RegionsWellFormed(g) ==> JoinsFollowTheirForeach(g, st1, r.value, ExemptJoins(g, n))
    ensures r.Ok? ==> SuccessorsCompiled(g, r.value, n, st1.visited[n], |st1.loops|, st1.visited.Keys, split, ctx, hook)
    decreases Unvisited(g, st1), 2, 0, 0
  {
    if g.nodes[n].nodeType == Foreach then WalkForeach(g, comps, n, split, ctx, hook, hookOutputs, st1)
    else WalkChildren(g, comps, g.nodes[n].outFuncs, 0, split, ctx, hook, hookOutputs, st1)
  }

  /** The rest of the walk at a compiled foreach `n`: its successor inside a
      new loop over the `foreach_splits` output, then its matching join in the
      foreach's own loop, both after the preceding op `hook`. The successor
      is compiled in the new loop, with the loop item as its split index, and
      the join, unless reached before, with the foreach's own split indexes. */
  function WalkForeach(
    g: Graph, comps: map<string, Component>, n: string,
    split: SplitIndexes, ctx: Option<nat>, hook: Option<nat>,
    hookOutputs: map<string, OutputRef>, st1: State): (r: Result<State>)
    requires Compiles(g, comps) && IsForeach(g, n) && n in st1.visited
    requires Ready(g, st1, split, ctx, hook) && st1.ops[st1.visited[n]].loop == ctx
    ensures r.Ok? ==> StateOk(g, r.value) && DepsPrecede(r.value.ops) && Grows(st1, r.value)
    ensures r.Ok? && RegionsWellFormed(g) ==> JoinsFollowTheirForeach(g, st1, r.value, {ForeachJoin(g, n)})
    ensures r.Ok? ==> SuccessorsCompiled(g, r.value, n, st1.visited[n], |st1.loops|, st1.visited.Keys, split, ctx, hook)
    decreases Unvisited(g, st1), 1, 0, 1
  {
    var child := ForeachChild(g, n);
    var loopId := |st1.loops|;
    var st2 := OpenLoop(g, st1, n, ctx);
    var st3 :- Walk(g, comps, child, LoopItem(loopId), Some(loopId), hook, hookOutputs, st2);
    LoopChildFacts(g, n, child, st1, st2, st3);
    var r :- WalkJoin(g, comps, n, split, ctx, hook, hookOutputs, st1, st3);
    ForeachFacts(g, n, split, ctx, hook, st1, st2, st3, r);
    Ok(r)
  }

  /** After the walk inside the loop of foreach `n`: it changed nothing
      compiled before, and reached no foreach join other than through its
      foreach. */
  lemma LoopChildFacts(g: Graph, n: string, child: string, st1: State, st2: State, st3: State)
    requires WellFormed(g) && IsForeach(g, n) && n in st1.visited
    requires Grows(st1, st2) && st2.visited == st1.visited && Grows(st2, st3) && child in st3.visited
    requires child == ForeachChild(g, n)
    requires RegionsWellFormed(g) ==> JoinsFollowTheirForeach(g, st2, st3, {child})
    ensures Grows(st1, st3)
    ensures RegionsWellFormed(g) ==> JoinsFollowTheirForeach(g, st1, st3, {})
  {
    GrowsTrans(st1, st2, st3);
    if RegionsWellFormed(g) {
      JoinsFollowUnexempt(g, st2, st3, {child}, child);
      assert {child} - {child} == {};
    }
  }

  /** The loop facts of `WalkForeach`, carried from the states in the loop
      to the state after the join. */
  lemma ForeachFacts(
    g: Graph, n: string, split: SplitIndexes, ctx: Option<nat>, hook: Option<nat>,
    st1: State, st2: State, st3: State, r: State)
    requires WellFormed(g) && IsForeach(g, n) && n in st1.visited
    requires Grows(st1, st2) && st2.visited == st1.visited && LoopOver(st2, |st1.loops|, st1.visited[n], ctx)
    requires Grows(st2, st3) && Grows(st3, r)
    requires ForeachChild(g, n) !in st2.visited ==>
               CompiledAs(st3, ForeachChild(g, n), LoopItem(|st1.loops|), Some(|st1.loops|), DepsOf(hook))
    requires RegionsWellFormed(g) && ForeachJoin(g, n) !in st1.visited ==>
               CompiledAs(r, ForeachJoin(g, n), split, ctx, DepsOf(hook))
    ensures Grows(st1, r)
    ensures SuccessorsCompiled(g, r, n, st1.visited[n], |st1.loops|, st1.visited.Keys, split, ctx, hook)
  {
    GrowsTrans(st1, st2, st3);
    GrowsTrans(st1, st3, r);
    GrowsTrans(st2, st3, r);
    assert r.loops[|st1.loops|] == r.loops[..|st2.loops|][|st1.loops|];
    var child := ForeachChild(g, n);
    if child !in st1.visited {
      CompiledAsGrows(st3, r, child, LoopItem(|st1.loops|), Some(|st1.loops|), DepsOf(hook));
    }
  }

  /** The matching join of foreach `n`, walked after its loop in the
      foreach's own loop. */
  function WalkJoin(
    g: Graph, comps: map<string, Component>, n: string,
    split: SplitIndexes, ctx: Option<nat>, hook: Option<nat>,
    hookOutputs: map<string, OutputRef>, st1: State, st3: State): (r: Result<State>)
    requires Compiles(g, comps) && IsForeach(g, n) && n in st1.visited
    requires Ready(g, st3, split, ctx, hook) && Grows(st1, st3)
    requires RegionsWellFormed(g) ==> JoinsFollowTheirForeach(g, st1, st3, {})
    ensures r.Ok? ==> StateOk(g, r.value) && DepsPrecede(r.value.ops) && Grows(st3, r.value)
    ensures r.Ok? && RegionsWellFormed(g) ==> JoinsFollowTheirForeach(g, st1, r.value, {ForeachJoin(g, n)})
    ensures r.Ok? && RegionsWellFormed(g) && ForeachJoin(g, n) !in st1.visited ==>
              CompiledAs(r.value, ForeachJoin(g, n), split, ctx, DepsOf(hook))
    decreases Unvisited(g, st1), 1, 0, 0
  {
    var join := ForeachJoin(g, n);
    UnvisitedMonotone(g, st1, st3);
    var r :- Walk(g, comps, join, split, ctx, hook, hookOutputs, st3);
    if RegionsWellFormed(g) then
      JoinsFollowSeq(g, st1, st3, r, {}, {join});
      assert join in st1.visited || join !in st3.visited;
      Ok(r)
    else Ok(r)
  }

  /** The walk's own postconditions, from those of the emission and of the
      rest of the walk. */
  lemma WalkFacts(
    g: Graph, n: string, split: SplitIndexes, ctx: Option<nat>, preceding: Option<nat>,
    st: State, st1: State, r: State)
    requires WellFormed(g) && n in g.nodes && n !in st.visited
    requires Grows(st, st1) && st1.visited == st.visited[n := |st.ops|] && CompiledAs(st1, n, split, ctx, DepsOf(preceding))
    requires Grows(st1, r) && (RegionsWellFormed(g) ==> JoinsFollowTheirForeach(g, st1, r, ExemptJoins(g, n)))
    ensures Grows(st, r) && n in r.visited
    ensures r.visited[n] == |st.ops| && CompiledAs(r, n, split, ctx, DepsOf(preceding))
    ensures RegionsWellFormed(g) ==> JoinsFollowTheirForeach(g, st, r, {n})
  {
    GrowsTrans(st, st1, r);
    CompiledAsGrows(st1, r, n, split, ctx, DepsOf(preceding));
    if RegionsWellFormed(g) {
      assert JoinsFollowTheirForeach(g, st, st1, {n});
      JoinsFollowSeq(g, st, st1, r, {n}, ExemptJoins(g, n));
      if g.nodes[n].nodeType == Foreach {
        var join := g.nodes[n].matchingJoin.value;
        JoinsFollowUnexempt(g, st, r, {n} + {join}, join);
        assert ({n} + {join}) - {join} <= {n};
      } else {
        assert {n} + ExemptJoins(g, n) == {n};
      }
    }
  }

  /** What the walk from a new step `n` compiled, in terms of the state
      before it was compiled. */
  lemma SuccessorsFacts(
    g: Graph, n: string, split: SplitIndexes, ctx: Option<nat>, hook: Option<nat>,
    st: State, st1: State, r: State)
    requires WellFormed(g) && n in g.nodes
    requires st1.visited == st.visited[n := |st.ops|] && st1.loops == st.loops
    requires SuccessorsCompiled(g, r, n, st1.visited[n], |st1.loops|, st1.visited.Keys, split, ctx, hook)
    ensures SuccessorsCompiled(g, r, n, |st.ops|, |st.loops|, st.visited.Keys + {n}, split, ctx, hook)
  {
    assert st1.visited.Keys == st.visited.Keys + {n};
  }

  /** Open the `ParallelFor` over the `foreach_splits` output of the step op of
      foreach `n`, inside loop `ctx`. */
  function OpenLoop(g: Graph, st: State, n: string, ctx: Option<nat>): (r: State)
    requires StateOk(g, st) && DepsPrecede(st.ops) && IsForeach(g, n) && n in st.visited
    requires st.ops[st.visited[n]].loop == ctx
    ensures StateOk(g, r) && DepsPrecede(r.ops) && Grows(st, r)
    ensures r.ops == st.ops && r.visited == st.visited && r.volumeOps == st.volumeOps
    ensures |r.loops| == |st.loops| + 1 && LoopOver(r, |st.loops|, st.visited[n], ctx)
  {
    var r := st.(loops := st.loops + [Loop(Output(st.visited[n], "foreach_splits"), ctx)]);
    assert r.loops[..|st.loops|] == st.loops;
    assert OpOk(g, st, st.visited[n]);
    forall i | 0 <= i < |r.ops|
      ensures OpOk(g, r, i)
    {
      assert OpOk(g, st, i);
    }
    forall l | 0 <= l < |r.loops|
      ensures LoopOk(g, r, l)
    {
      if l < |st.loops| {
        assert LoopOk(g, st, l);
      }
    }
    r
  }

  /** The successors of a non-foreach step, from position `i` on, stopping
      at the first that joins a foreach. */
  function WalkChildren(
    g: Graph, comps: map<string, Component>, children: seq<string>, i: nat,
    split: SplitIndexes, ctx: Option<nat>, preceding: Option<nat>,
    precedingOutputs: map<string, OutputRef>, st: State): (r: Result<State>)
    requires Compiles(g, comps) && i <= |children| && forall c :: c in children ==> c in g.nodes
    requires Ready(g, st, split, ctx, preceding)
    ensures r.Ok? ==> StateOk(g, r.value) && DepsPrecede(r.value.ops) && Grows(st, r.value)
    ensures r.Ok? && RegionsWellFormed(g) ==> JoinsFollowTheirForeach(g, st, r.value, {})
    ensures r.Ok? ==> ChildrenCompiled(g, r.value, children, i, st.visited.Keys, split, ctx, preceding)
    decreases Unvisited(g, st), 1, |children| - i, 1
  {
    if i == |children| || IsForeachJoin(g, children[i]) then
      GrowsRefl(st);
      Ok(st)
    else
      var st1 :- Walk(g, comps, children[i], split, ctx, preceding, precedingOutputs, st);
      WalkSiblings(g, comps, children, i, split, ctx, preceding, precedingOutputs, st, st1)
  }

  /** The successors after position `i`, once the walk from successor `i`
      has led from `st` to `st1`. */
  function WalkSiblings(
    g: Graph, comps: map<string, Component>, children: seq<string>, i: nat,
    split: SplitIndexes, ctx: Option<nat>, preceding: Option<nat>,
    precedingOutputs: map<string, OutputRef>, st: State, st1: State): (r: Result<State>)
    requires Compiles(g, comps) && i < |children| && forall c :: c in children ==> c in g.nodes
    requires Ready(g, st1, split, ctx, preceding) && Grows(st, st1)
    requires !IsForeachJoin(g, children[i]) && children[i] in st1.visited
    requires RegionsWellFormed(g) ==> JoinsFollowTheirForeach(g, st, st1, {children[i]})
    requires children[i] !in st.visited ==> CompiledAs(st1, children[i], split, ctx, DepsOf(preceding))
    ensures r.Ok? ==> StateOk(g, r.value) && DepsPrecede(r.value.ops) && Grows(st, r.value)
    ensures r.Ok? && RegionsWellFormed(g) ==> JoinsFollowTheirForeach(g, st, r.value, {})
    ensures r.Ok? ==> ChildrenCompiled(g, r.value, children, i, st.visited.Keys, split, ctx, preceding)
    decreases Unvisited(g, st), 1, |children| - i, 0
  {
    UnvisitedMonotone(g, st, st1);
    var r :- WalkChildren(g, comps, children, i + 1, split, ctx, preceding, precedingOutputs, st1);
    GrowsTrans(st, st1, r);
    SiblingsFacts(g, children, i, st, st1, r, split, ctx, preceding);
    if RegionsWellFormed(g) then
      JoinsFollowUnexempt(g, st, st1, {children[i]}, children[i]);
      assert {children[i]} - {children[i]} == {};
      JoinsFollowSeq(g, st, st1, r, {}, {});
      Ok(r)
    else Ok(r)
  }

  /** The successors compiled by the walk from position `i`, from those
      compiled from position `i + 1` on. */
  lemma SiblingsFacts(
    g: Graph, children: seq<string>, i: nat, st: State, st1: State, r: State,
    split: SplitIndexes, ctx: Option<nat>, preceding: Option<nat>)
    requires i < |children| && !IsForeachJoin(g, children[i]) && children[i] in st1.visited
    requires Grows(st1, r) && ChildrenCompiled(g, r, children, i + 1, st1.visited.Keys, split, ctx, preceding)
    requires children[i] !in st.visited ==> CompiledAs(st1, children[i], split, ctx, DepsOf(preceding))
    ensures ChildrenCompiled(g, r, children, i, st.visited.Keys, split, ctx, preceding)
  {
    assert StopAt(g, children, i) == StopAt(g, children, i + 1);
    if children[i] !in st.visited {
      CompiledAsGrows(st1, r, children[i], split, ctx, DepsOf(preceding));
    }
  }

  // ---------------------------------------------------------------------------
  // When the walk fails
  // ---------------------------------------------------------------------------

  /** The walk fails only by reaching a step, not compiled yet, whose ops
      cannot be emitted; so when every such step can be emitted it succeeds. */
  lemma {:induction false} WalkFailsOnlyAtEmit(
    g: Graph, comps: map<string, Component>, n: string,
    split: SplitIndexes, ctx: Option<nat>, preceding: Option<nat>,
    precedingOutputs: map<string, OutputRef>, st: State)
    requires Compiles(g, comps) && n in g.nodes
    requires Ready(g, st, split, ctx, preceding)
    ensures Walk(g, comps, n, split, ctx, preceding, precedingOutputs, st).Err? ==> SomeEmitFails(g, comps, st.visited.Keys)
    ensures (forall m :: m in g.nodes && m !in st.visited ==> !EmitFails(g, comps, m)) ==>
              Walk(g, comps, n, split, ctx, preceding, precedingOutputs, st).Ok?
    decreases Unvisited(g, st), 0, 1, 0
  {
    if n !in st.visited && !EmitFails(g, comps, n) {
      WalkNewFailsOnlyAtEmit(g, comps, n, split, ctx, preceding, precedingOutputs, st);
    }
  }

  lemma {:induction false} WalkNewFailsOnlyAtEmit(
    g: Graph, comps: map<string, Component>, n: string,
    split: SplitIndexes, ctx: Option<nat>, preceding: Option<nat>,
    precedingOutputs: map<string, OutputRef>, st: State)
    requires Compiles(g, comps) && n in g.nodes && n !in st.visited
    requires Ready(g, st, split, ctx, preceding) && !EmitFails(g, comps, n)
    ensures WalkNew(g, comps, n, split, ctx, preceding, precedingOutputs, st).Err? ==> SomeEmitFails(g, comps, st.visited.Keys)
    decreases Unvisited(g, st), 0, 0, 0
  {
    var e := Emitted(g, comps, n, split, ctx, preceding, precedingOutputs, st);
    UnvisitedShrinks(g, st, e.state, n);
    WalkFromFailsOnlyAtEmit(g, comps, n, split, ctx, e.next, e.nextOutputs, e.state);
    SomeEmitFailsEarlier(g, comps, st, e.state);
  }

  lemma {:induction false} WalkFromFailsOnlyAtEmit(
    g: Graph, comps: map<string, Component>, n: string,
    split: SplitIndexes, ctx: Option<nat>, hook: Option<nat>,
    hookOutputs: map<string, OutputRef>, st1: State)
    requires Compiles(g, comps) && n in g.nodes && n in st1.visited
    requires Ready(g, st1, split, ctx, hook) && st1.ops[st1.visited[n]].loop == ctx
    ensures WalkFrom(g, comps, n, split, ctx, hook, hookOutputs, st1).Err? ==> SomeEmitFails(g, comps, st1.visited.Keys)
    decreases Unvisited(g, st1), 2, 0, 0
  {
    if g.nodes[n].nodeType == Foreach {
      WalkForeachFailsOnlyAtEmit(g, comps, n, split, ctx, hook, hookOutputs, st1);
    } else {
      WalkChildrenFailsOnlyAtEmit(g, comps, g.nodes[n].outFuncs, 0, split, ctx, hook, hookOutputs, st1);
    }
  }

  lemma {:induction false} WalkForeachFailsOnlyAtEmit(
    g: Graph, comps: map<string, Component>, n: string,
    split: SplitIndexes, ctx: Option<nat>, hook: Option<nat>,
    hookOutputs: map<string, OutputRef>, st1: State)
    requires Compiles(g, comps) && IsForeach(g, n) && n in st1.visited
    requires Ready(g, st1, split, ctx, hook) && st1.ops[st1.visited[n]].loop == ctx
    ensures WalkForeach(g, comps, n, split, ctx, hook, hookOutputs, st1).Err? ==> SomeEmitFails(g, comps, st1.visited.Keys)
    decreases Unvisited(g, st1), 1, 0, 1
  {
    var child := ForeachChild(g, n);
    var loopId := |st1.loops|;
    var st2 := OpenLoop(g, st1, n, ctx);
    WalkFailsOnlyAtEmit(g, comps, child, LoopItem(loopId), Some(loopId), hook, hookOutputs, st2);
    var inner := Walk(g, comps, child, LoopItem(loopId), Some(loopId), hook, hookOutputs, st2);
    if inner.Ok? {
      var st3 := inner.value;
      LoopChildFacts(g, n, child, st1, st2, st3);
      WalkJoinFailsOnlyAtEmit(g, comps, n, split, ctx, hook, hookOutputs, st1, st3);
      SomeEmitFailsEarlier(g, comps, st1, st3);
    }
  }

  lemma {:induction false} WalkJoinFailsOnlyAtEmit(
    g: Graph, comps: map<string, Component>, n: string,
    split: SplitIndexes, ctx: Option<nat>, hook: Option<nat>,
    hookOutputs: map<string, OutputRef>, st1: State, st3: State)
    requires Compiles(g, comps) && IsForeach(g, n) && n in st1.visited
    requires Ready(g, st3, split, ctx, hook) && Grows(st1, st3)
    requires RegionsWellFormed(g) ==> JoinsFollowTheirForeach(g, st1, st3, {})
    ensures WalkJoin(g, comps, n, split, ctx, hook, hookOutputs, st1, st3).Err? ==> SomeEmitFails(g, comps, st3.visited.Keys)
    decreases Unvisited(g, st1), 1, 0, 0
  {
    UnvisitedMonotone(g, st1, st3);
    WalkFailsOnlyAtEmit(g, comps, ForeachJoin(g, n), split, ctx, hook, hookOutputs, st3);
  }

  lemma {:induction false} WalkChildrenFailsOnlyAtEmit(
    g: Graph, comps: map<string, Component>, children: seq<string>, i: nat,
    split: SplitIndexes, ctx: Option<nat>, preceding: Option<nat>,
    precedingOutputs: map<string, OutputRef>, st: State)
    requires Compiles(g, comps) && i <= |children| && forall c :: c in children ==> c in g.nodes
    requires Ready(g, st, split, ctx, preceding)
    ensures WalkChildren(g, comps, children, i, split, ctx, preceding, precedingOutputs, st).Err? ==>
              SomeEmitFails(g, comps, st.visited.Keys)
    decreases Unvisited(g, st), 1, |children| - i, 1
  {
    if i < |children| && !IsForeachJoin(g, children[i]) {
      WalkFailsOnlyAtEmit(g, comps, children[i], split, ctx, preceding, precedingOutputs, st);
      var first := Walk(g, comps, children[i], split, ctx, preceding, precedingOutputs, st);
      if first.Ok? {
        WalkSiblingsFailsOnlyAtEmit(g, comps, children, i, split, ctx, preceding, precedingOutputs, st, first.value);
      }
    }
  }

  lemma {:induction false} WalkSiblingsFailsOnlyAtEmit(
    g: Graph, comps: map<string, Component>, children: seq<string>, i: nat,
    split: SplitIndexes, ctx: Option<nat>, preceding: Option<nat>,
    precedingOutputs: map<string, OutputRef>, st: State, st1: State)
    requires Compiles(g, comps) && i < |children| && forall c :: c in children ==> c in g.nodes
    requires Ready(g, st1, split, ctx, preceding) && Grows(st, st1)
    requires !IsForeachJoin(g, children[i]) && children[i] in st1.visited
    requires RegionsWellFormed(g) ==> JoinsFollowTheirForeach(g, st, st1, {children[i]})
    requires children[i] !in st.visited ==> CompiledAs(st1, children[i], split, ctx, DepsOf(preceding))
    ensures WalkSiblings(g, comps, children, i, split, ctx, preceding, precedingOutputs, st, st1).Err? ==>
              SomeEmitFails(g, comps, st.visited.Keys)
    decreases Unvisited(g, st), 1, |children| - i, 0
  {
    UnvisitedMonotone(g, st, st1);
    WalkChildrenFailsOnlyAtEmit(g, comps, children, i + 1, split, ctx, preceding, precedingOutputs, st1);
    SomeEmitFailsEarlier(g, comps, st, st1);
  }

}
