/** The flow graph the compiler walks: steps with their type, edges, split
    bookkeeping and decorators, as the upstream graph builder hands them over. */
module FlowGraph {
  import opened Results
  import opened Decorators

  datatype NodeType = Start | Linear | Split | Foreach | Join | End

  /** One step (`DAGNode`). `splitParents` lists the enclosing splits, innermost
      last; `matchingJoin` is set on splits. */
  datatype Node = Node(
    name: string,
    nodeType: NodeType,
    outFuncs: seq<string>,
    inFuncs: seq<string>,
    matchingJoin: Option<string>,
    splitParents: seq<string>,
    decorators: seq<Decorator>)

  /** The graph: its steps by name, and `steps`, the order in which iterating
      over the graph visits them. */
  datatype Graph = Graph(nodes: map<string, Node>, steps: seq<string>)

  /** What the compiler takes for granted and looks up without checking: a
      `start` step, every name it follows resolves, a foreach has exactly one
      successor and a matching join, and a join has an enclosing split. */
  predicate WellFormed(g: Graph) {
    && "start" in g.nodes
    && (forall n {:trigger g.nodes[n]} :: n in g.nodes ==> NodeWellFormed(g, n))
  }

  /** Iterating over the graph lists every step, and only steps. */
  predicate StepsListed(g: Graph) {
    && (forall i :: 0 <= i < |g.steps| ==> g.steps[i] in g.nodes)
    && (forall n :: n in g.nodes ==> n in g.steps)
  }

  predicate NodeWellFormed(g: Graph, n: string)
    requires n in g.nodes
  {
    var node := g.nodes[n];
    && node.name == n
    && (forall c :: c in node.outFuncs ==> c in g.nodes)
    && (forall p :: p in node.inFuncs ==> p in g.nodes)
    && (forall p :: p in node.splitParents ==> p in g.nodes)
    && (node.nodeType == Foreach ==> |node.outFuncs| == 1 && node.matchingJoin.Some? && node.matchingJoin.value in g.nodes)
    && (node.nodeType == Join ==> |node.splitParents| > 0)
  }

  /** The innermost split enclosing a join. */
  function LastSplitParent(g: Graph, n: string): string
    requires n in g.nodes && |g.nodes[n].splitParents| > 0
  {
    g.nodes[n].splitParents[|g.nodes[n].splitParents| - 1]
  }

  /** A join that closes a foreach: its innermost enclosing split is a foreach. */
  predicate IsForeachJoin(g: Graph, n: string) {
    && n in g.nodes
    && g.nodes[n].nodeType == Join
    && |g.nodes[n].splitParents| > 0
    && LastSplitParent(g, n) in g.nodes
    && g.nodes[LastSplitParent(g, n)].nodeType == Foreach
  }

  predicate IsForeach(g: Graph, n: string) {
    n in g.nodes && g.nodes[n].nodeType == Foreach
  }

  /** Foreach regions as the flow linter leaves them: a foreach's successor is
      not itself a foreach join, and its matching join is a foreach join whose
      innermost split is that foreach. */
  predicate RegionsWellFormed(g: Graph) {
    forall f :: f in g.nodes && g.nodes[f].nodeType == Foreach ==>
      && |g.nodes[f].outFuncs| >= 1
      && !IsForeachJoin(g, g.nodes[f].outFuncs[0])
      && g.nodes[f].matchingJoin.Some?
      && IsForeachJoin(g, g.nodes[f].matchingJoin.value)
      && LastSplitParent(g, g.nodes[f].matchingJoin.value) == f
  }
}
