/** The walk's accumulators and the invariant it keeps: the ops and loops
    emitted so far and the steps compiled, and how they relate to the graph. */
module WalkState {
  import opened Results
  import opened Decorators
  import opened FlowGraph
  import opened StepOps

  /** A `ParallelFor` over the items of an output, nested inside loop `parent`. */
  datatype Loop = Loop(items: OutputRef, parent: Option<nat>)

  /** The persistent-volume claim of `_create_volume`. */
  datatype VolumeClaim = VolumeClaim(opName: string, size: string, storageClass: Option<string>)

  /** An op of the pipeline with its dependencies (`after`) and its loop. A
      step op records what the walk decides for it; the container it runs is
      `StepOpSpec`. */
  datatype Op =
    | StepOp(step: string, split: SplitIndexes, precedingInputs: seq<string>,
             precedingOutputsDict: map<string, OutputRef>, volume: Option<VolumeMount>,
             deps: set<nat>, loop: Option<nat>)
    | PrecedingOp(func: string, args: seq<OutputRef>, deps: set<nat>, loop: Option<nat>)
    | VolumeOp(claim: VolumeClaim, deps: set<nat>, loop: Option<nat>)
    | SensorOp(deps: set<nat>, loop: Option<nat>)
    | ExitHandlerOp(name: string, flag: string, env: map<string, string>, deps: set<nat>, loop: Option<nat>)

  /** The walk's accumulators: the ops and loops emitted so far, `visited`
      (step name to its step op) and `visited_resource_ops` (step name to its
      volume op). */
  datatype State = State(ops: seq<Op>, loops: seq<Loop>, visited: map<string, nat>, volumeOps: map<string, nat>)

  /** The components handed to the walk: one per step, built for that step. */
  predicate Compiles(g: Graph, comps: map<string, Component>) {
    && WellFormed(g)
    && comps.Keys == g.nodes.Keys
    && (forall n :: n in comps ==> comps[n].stepName == n)
  }

  /** A step's split indexes agree with the loop it is compiled in. */
  predicate IndexMatchesLoop(split: SplitIndexes, ctx: Option<nat>) {
    match split
    case NoIndex => ctx.None?
    case LoopItem(l) => ctx == Some(l)
  }

  predicate OpOk(g: Graph, st: State, i: nat)
    requires i < |st.ops|
  {
    var op := st.ops[i];
    && (op.loop.Some? ==> op.loop.value < |st.loops|)
    && (op.StepOp? ==>
          && IndexMatchesLoop(op.split, op.loop)
          && op.step in st.visited && st.visited[op.step] == i)
  }

  /** A loop iterates over the `foreach_splits` output of a foreach step op and
      is nested in the loop that step op was compiled in. */
  predicate LoopOk(g: Graph, st: State, l: nat)
    requires l < |st.loops|
  {
    var loop := st.loops[l];
    && loop.items.Output?
    && loop.items.name == "foreach_splits"
    && loop.items.op < |st.ops|
    && st.ops[loop.items.op].StepOp?
    && IsForeach(g, st.ops[loop.items.op].step)
    && loop.parent == st.ops[loop.items.op].loop
    && (loop.parent.Some? ==> loop.parent.value < l)
  }

  /** The invariant of the accumulators: `visited` maps each step to its one
      step op, volume ops are registered against visited steps, ops live in
      existing loops, and loops iterate over foreach outputs. */
  predicate StateOk(g: Graph, st: State) {
    && (forall s :: s in st.visited ==>
          st.visited[s] < |st.ops| && st.ops[st.visited[s]].StepOp? && st.ops[st.visited[s]].step == s)
    && (forall s :: s in st.volumeOps ==>
          s in st.visited && st.volumeOps[s] < |st.ops| && st.ops[st.volumeOps[s]].VolumeOp?)
    && (forall i :: 0 <= i < |st.ops| ==> OpOk(g, st, i))
    && (forall l :: 0 <= l < |st.loops| ==> LoopOk(g, st, l))
  }

  /** Before wiring, an op only depends on ops emitted before it. */
  predicate DepsPrecede(ops: seq<Op>) {
    forall i, d :: 0 <= i < |ops| && d in ops[i].deps ==> d < i
  }

  /** `b` extends `a`: nothing emitted or registered is changed or dropped. */
  predicate Grows(a: State, b: State) {
    && |a.ops| <= |b.ops| && b.ops[..|a.ops|] == a.ops
    && |a.loops| <= |b.loops| && b.loops[..|a.loops|] == a.loops
    && (forall s :: s in a.visited ==> s in b.visited && b.visited[s] == a.visited[s])
    && (forall s :: s in a.volumeOps ==> s in b.volumeOps && b.volumeOps[s] == a.volumeOps[s])
  }

  /** What a call of the walk may assume about its arguments. */
  predicate Ready(g: Graph, st: State, split: SplitIndexes, ctx: Option<nat>, preceding: Option<nat>) {
    && StateOk(g, st)
    && DepsPrecede(st.ops)
    && IndexMatchesLoop(split, ctx)
    && (ctx.Some? ==> ctx.value < |st.loops|)
    && (preceding.Some? ==> preceding.value < |st.ops|)
  }

  function DepsOf(preceding: Option<nat>): set<nat> {
    if preceding.Some? then {preceding.value} else {}
  }

  /** Step `n` is compiled by a step op in loop `ctx` with split indexes
      `split` and (before wiring) dependencies `deps`. */
  predicate CompiledAs(st: State, n: string, split: SplitIndexes, ctx: Option<nat>, deps: set<nat>) {
    && n in st.visited
    && st.visited[n] < |st.ops|
    && st.ops[st.visited[n]].StepOp?
    && st.ops[st.visited[n]].loop == ctx
    && st.ops[st.visited[n]].split == split
    && st.ops[st.visited[n]].deps == deps
  }

  /** Loop `l` is the `ParallelFor` over the `foreach_splits` output of op
      `stepId`, nested in loop `ctx`. */
  predicate LoopOver(st: State, l: nat, stepId: nat, ctx: Option<nat>) {
    l < |st.loops| && st.loops[l] == Loop(Output(stepId, "foreach_splits"), ctx)
  }

  lemma GrowsRefl(a: State)
    ensures Grows(a, a)
  {
    assert a.ops[..|a.ops|] == a.ops;
    assert a.loops[..|a.loops|] == a.loops;
  }

  lemma GrowsTrans(a: State, b: State, c: State)
    requires Grows(a, b) && Grows(b, c)
    ensures Grows(a, c)
  {
    assert c.ops[..|a.ops|] == c.ops[..|b.ops|][..|a.ops|];
    assert c.loops[..|a.loops|] == c.loops[..|b.loops|][..|a.loops|];
  }

  lemma CompiledAsGrows(a: State, b: State, n: string, split: SplitIndexes, ctx: Option<nat>, deps: set<nat>)
    requires Grows(a, b) && CompiledAs(a, n, split, ctx, deps)
    ensures CompiledAs(b, n, split, ctx, deps)
  {
    assert b.ops[a.visited[n]] == b.ops[..|a.ops|][a.visited[n]];
  }

  /** The steps the walk has not compiled yet. */
  function Unvisited(g: Graph, st: State): nat {
    |g.nodes.Keys - st.visited.Keys|
  }

  lemma SubsetCard<T>(a: set<T>, b: set<T>)
    requires a <= b
    ensures |a| <= |b|
  {
    if a != {} {
      var x :| x in a;
      SubsetCard(a - {x}, b - {x});
    }
  }

  lemma UnvisitedMonotone(g: Graph, a: State, b: State)
    requires Grows(a, b)
    ensures Unvisited(g, b) <= Unvisited(g, a)
  {
    SubsetCard(g.nodes.Keys - b.visited.Keys, g.nodes.Keys - a.visited.Keys);
  }

  lemma UnvisitedShrinks(g: Graph, a: State, b: State, n: string)
    requires Grows(a, b) && n in g.nodes && n !in a.visited && n in b.visited
    ensures Unvisited(g, b) < Unvisited(g, a)
  {
    var rest := g.nodes.Keys - a.visited.Keys;
    SubsetCard(g.nodes.Keys - b.visited.Keys, rest - {n});
  }

  /** The successor of foreach `n`, walked inside its loop. */
  function ForeachChild(g: Graph, n: string): string
    requires WellFormed(g) && IsForeach(g, n)
  {
    g.nodes[n].outFuncs[0]
  }

  function ForeachJoin(g: Graph, n: string): string
    requires WellFormed(g) && IsForeach(g, n)
  {
    g.nodes[n].matchingJoin.value
  }

  /** The joins the walk from `n` may reach without passing their foreach:
      the matching join of a foreach `n`. */
  function ExemptJoins(g: Graph, n: string): set<string>
    requires WellFormed(g) && n in g.nodes
  {
    if g.nodes[n].nodeType == Foreach then {g.nodes[n].matchingJoin.value} else {}
  }

  /** Every join whose innermost split is a foreach, newly compiled between
      `a` and `b` other than the steps in `exempt`, had that foreach compiled
      in the same stretch: the walk only reaches such a join from its foreach. */
  predicate JoinsFollowTheirForeach(g: Graph, a: State, b: State, exempt: set<string>) {
    forall x :: x in b.visited && x !in a.visited && x !in exempt && IsForeachJoin(g, x) ==>
      LastSplitParent(g, x) in b.visited && LastSplitParent(g, x) !in a.visited
  }

  lemma JoinsFollowSeq(g: Graph, a: State, b: State, c: State, e1: set<string>, e2: set<string>)
    requires Grows(a, b) && Grows(b, c)
    requires JoinsFollowTheirForeach(g, a, b, e1) && JoinsFollowTheirForeach(g, b, c, e2)
    ensures JoinsFollowTheirForeach(g, a, c, e1 + e2)
  {
  }

  /** A step that is not a foreach join, or whose foreach was compiled in the
      same stretch, need not be exempt. */
  lemma JoinsFollowUnexempt(g: Graph, a: State, b: State, e: set<string>, x: string)
    requires JoinsFollowTheirForeach(g, a, b, e)
    requires IsForeachJoin(g, x) ==> LastSplitParent(g, x) in b.visited && LastSplitParent(g, x) !in a.visited
    ensures JoinsFollowTheirForeach(g, a, b, e - {x})
  {
  }

  /** The position of the first foreach join among `children` from `i` on,
      or their end: the walk over a step's successors stops there. */
  function StopAt(g: Graph, children: seq<string>, i: nat): (k: nat)
    requires i <= |children|
    ensures i <= k <= |children|
    ensures k < |children| ==> IsForeachJoin(g, children[k])
    ensures forall j :: i <= j < k ==> !IsForeachJoin(g, children[j])
    decreases |children| - i
  {
    if i == |children| || IsForeachJoin(g, children[i]) then i else StopAt(g, children, i + 1)
  }

  /** After walking `children` from position `i` on, with the steps in
      `before` compiled already: every child up to the first foreach join is
      compiled, the first of them, unless compiled before, in loop `ctx` with
      split indexes `split` and after the preceding op `hook`. */
  predicate ChildrenCompiled(
    g: Graph, r: State, children: seq<string>, i: nat, before: set<string>,
    split: SplitIndexes, ctx: Option<nat>, hook: Option<nat>)
    requires i <= |children|
  {
    && (forall j :: i <= j < StopAt(g, children, i) ==> children[j] in r.visited)
    && (i < StopAt(g, children, i) && children[i] !in before ==> CompiledAs(r, children[i], split, ctx, DepsOf(hook)))
  }

  /** What the walk from step `n`, compiled as op `stepId` in loop `ctx` with
      split indexes `split` when `l` loops existed and the steps in `before`
      were compiled, leaves in `r`, its successors handed the preceding op
      `hook`. A foreach has loop `l` iterating over its `foreach_splits`
      output inside `ctx`; its successor, unless compiled before, is compiled
      in loop `l` with the loop item as split index, and its matching join,
      unless compiled before, back in `ctx` with `split`. Any other step has
      its successors compiled as `ChildrenCompiled` says. */
  predicate SuccessorsCompiled(
    g: Graph, r: State, n: string, stepId: nat, l: nat, before: set<string>,
    split: SplitIndexes, ctx: Option<nat>, hook: Option<nat>)
    requires WellFormed(g) && n in g.nodes
  {
    if IsForeach(g, n) then
      && LoopOver(r, l, stepId, ctx)
      && (ForeachChild(g, n) !in before ==> CompiledAs(r, ForeachChild(g, n), LoopItem(l), Some(l), DepsOf(hook)))
      && (RegionsWellFormed(g) && ForeachJoin(g, n) !in before ==> CompiledAs(r, ForeachJoin(g, n), split, ctx, DepsOf(hook)))
    else
      ChildrenCompiled(g, r, g.nodes[n].outFuncs, 0, before, split, ctx, hook)
  }
}
