/**
 * What the flow-chart generator of the algorithm visualizer produces, as
 * functions of the parsed clauses: one entry node per function name, one
 * pattern node per clause, and a subtree of nodes for each clause body, laid
 * out on an integer grid and connected by labelled edges.
 */
module FlowChartSpec {
  import opened Wrappers
  import opened Text
  import opened PseudoAst

  /** What a node stands for; the generator styles each kind with its own colours. */
  datatype NodeKind = EntryNode | PatternNode | LiteralNode | VariableNode | ApplicationNode

  datatype FlowNode = FlowNode(id: string, x: int, y: int, caption: string, kind: NodeKind)

  /** An edge; only the entry-to-pattern and function-to-argument edges carry a label. */
  datatype FlowEdge = FlowEdge(id: string, source: string, target: string, caption: Option<string>)

  // ---------------------------------------------------------------------------
  // The subtree of a term
  // ---------------------------------------------------------------------------

  /** The id of argument `j` of the node with id `id`. */
  function ArgId(id: string, j: nat): string
  {
    id + "-arg-" + NatToString(j)
  }

  /**
   * The x coordinate of argument `j` of `n` under a node at `x`: the source
   * computes `x + (j - n/2 + 0.5) * 150`, which is this integer.
   */
  function ArgX(x: int, j: nat, n: nat): int
  {
    x + (2 * j - n + 1) * 75
  }

  /** The label of a variable node: its name, or `var` for an empty one. */
  function VariableLabel(name: string): string
  {
    if name == [] then "var" else name
  }

  /** The label of an application node: the name of its head, or `apply` when the head has none; never empty. */
  function HeadLabel(f: Term): (r: string)
    ensures r != []
    ensures f.Var? && f.name != [] ==> r == f.name
    ensures !f.Var? ==> r == "apply"
  {
    if f.Var? && f.name != [] then f.name else "apply"
  }

  /**
   * The node drawn for the root of `t`: a literal shows its text, a variable
   * its name (or `var`), an application the label of its head; the kind
   * tells the three apart.
   */
  function RootNode(t: Term, id: string, x: int, y: int): (r: FlowNode)
    ensures r.id == id && r.x == x && r.y == y
    ensures t.Lit? <==> r.kind == LiteralNode
    ensures t.Var? <==> r.kind == VariableNode
    ensures t.App? <==> r.kind == ApplicationNode
    ensures t.Lit? ==> r.caption == t.value
    ensures t.Var? ==> r.caption == VariableLabel(t.name) && r.caption != []
    ensures t.App? ==> r.caption == HeadLabel(t.fn) && r.caption != []
  {
    match t
    case Lit(v) => FlowNode(id, x, y, v, LiteralNode)
    case Var(n) => FlowNode(id, x, y, VariableLabel(n), VariableNode)
    case App(f, _) => FlowNode(id, x, y, HeadLabel(f), ApplicationNode)
  }

  /** The list `generateTermFlow` returns: the root, then each argument's list in order. */
  function TermNodes(t: Term, id: string, x: int, y: int): (r: seq<FlowNode>)
    ensures |r| >= 1 && r[0] == RootNode(t, id, x, y)
    decreases t, 1
  {
    if t.App? then [RootNode(t, id, x, y)] + ArgNodes(t, id, x, y, |t.args|) else [RootNode(t, id, x, y)]
  }

  /** The lists returned for the first `k` arguments of application `t`, concatenated. */
  function ArgNodes(t: Term, id: string, x: int, y: int, k: nat): seq<FlowNode>
    requires t.App? && k <= |t.args|
    decreases t, 0, k
  {
    if k == 0 then []
    else ArgNodes(t, id, x, y, k - 1)
         + TermNodes(t.args[k - 1], ArgId(id, k - 1), ArgX(x, k - 1, |t.args|), y + 100)
  }

  /** The edge from a node to the root of its argument `j`, labelled `arg j+1`. */
  function ArgEdge(id: string, j: nat): FlowEdge
  {
    FlowEdge(id + "-" + ArgId(id, j), id, ArgId(id, j), Some("arg " + NatToString(j + 1)))
  }

  /**
   * The edges `generateTermFlow` pushes, in order: each argument's own edges,
   * then the edge to it. A term has edges exactly when it applies something
   * to arguments.
   */
  function TermEdges(t: Term, id: string, x: int, y: int): (r: seq<FlowEdge>)
    ensures r == [] <==> !(t.App? && |t.args| > 0)
    decreases t, 1
  {
    if t.App? then ArgEdges(t, id, x, y, |t.args|) else []
  }

  function ArgEdges(t: Term, id: string, x: int, y: int, k: nat): (r: seq<FlowEdge>)
    requires t.App? && k <= |t.args|
    ensures r == [] <==> k == 0
    decreases t, 0, k
  {
    if k == 0 then []
    else ArgEdges(t, id, x, y, k - 1)
         + TermEdges(t.args[k - 1], ArgId(id, k - 1), ArgX(x, k - 1, |t.args|), y + 100)
         + [ArgEdge(id, k - 1)]
  }

  /**
   * The nodes `generateTermFlow` appends to the chart: every argument call
   * appends its own list first, then this call appends its whole list, which
   * already holds the arguments' nodes again.
   */
  function TermAppended(t: Term, id: string, x: int, y: int): seq<FlowNode>
    decreases t, 1
  {
    if t.App? then ArgAppended(t, id, x, y, |t.args|) + TermNodes(t, id, x, y) else TermNodes(t, id, x, y)
  }

  function ArgAppended(t: Term, id: string, x: int, y: int, k: nat): seq<FlowNode>
    requires t.App? && k <= |t.args|
    decreases t, 0, k
  {
    if k == 0 then []
    else ArgAppended(t, id, x, y, k - 1)
         + TermAppended(t.args[k - 1], ArgId(id, k - 1), ArgX(x, k - 1, |t.args|), y + 100)
  }

  // ---------------------------------------------------------------------------
  // Pattern labels
  // ---------------------------------------------------------------------------

  /**
   * `formatPattern`: the name, then the formatted arguments, all separated by
   * single spaces; the text starts with the name, and a pattern without
   * arguments is its name alone.
   */
  function FormatPattern(p: Pattern): (r: string)
    ensures |r| >= |p.name| && r[..|p.name|] == p.name
    ensures (p.PVar? || p.args == []) ==> r == p.name
    decreases p, 1
  {
    if p.PCon? && |p.args| > 0 then p.name + " " + Join(FormatPatterns(p.args), " ") else p.name
  }

  function FormatPatterns(ps: seq<Pattern>): (r: seq<string>)
    ensures |r| == |ps|
    decreases ps, 0
  {
    if ps == [] then [] else [FormatPattern(ps[0])] + FormatPatterns(ps[1..])
  }

  /** The label of a clause's pattern node: `default` without patterns, the one pattern's text for one. */
  function PatternLabel(ps: seq<Pattern>): (r: string)
    ensures ps == [] ==> r == "default"
    ensures |ps| == 1 ==> r == FormatPattern(ps[0])
  {
    if |ps| > 0 then Join(FormatPatterns(ps), " ") else "default"
  }

  // ---------------------------------------------------------------------------
  // Grouping clauses by function name
  // ---------------------------------------------------------------------------

  /** The clauses of one function, in the order they were written. */
  datatype Group = Group(name: string, clauses: seq<FunctionDefinition>)

  /** Add a clause to the group of its name, or open a new group at the end. */
  function AddToGroups(gs: seq<Group>, d: FunctionDefinition): (r: seq<Group>)
    ensures |r| == |gs| || |r| == |gs| + 1
    ensures r != [] && (gs != [] ==> r[0].name == gs[0].name)
  {
    if gs == [] then [Group(d.name, [d])]
    else if gs[0].name == d.name then [Group(gs[0].name, gs[0].clauses + [d])] + gs[1..]
    else [gs[0]] + AddToGroups(gs[1..], d)
  }

  /**
   * The `functionGroups` map, in insertion order: no more groups than
   * clauses, and the first group is the first clause's function.
   */
  function GroupByName(defs: seq<FunctionDefinition>): (r: seq<Group>)
    ensures |r| <= |defs|
    ensures defs == [] <==> r == []
    ensures defs != [] ==> r[0].name == defs[0].name
  {
    if defs == [] then [] else AddToGroups(GroupByName(defs[..|defs| - 1]), defs[|defs| - 1])
  }

  // ---------------------------------------------------------------------------
  // The chart, built function by function
  // ---------------------------------------------------------------------------

  /** The generator's state: the id counter and the node and edge lists. */
  datatype Chart = Chart(nodeId: nat, nodes: seq<FlowNode>, edges: seq<FlowEdge>)

  function EntryId(c: nat): string { "entry-" + NatToString(c) }
  function PatternId(c: nat): string { "pattern-" + NatToString(c) }
  function BodyId(c: nat): string { "body-" + NatToString(c) }

  /** The x coordinate of the `i`-th clause of a function. */
  function ClauseX(i: nat): int
  {
    100 + i * 250
  }

  /** The edge from a function's entry node to the pattern node of its clause `i`, labelled `case i+1`. */
  function CaseEdge(entryId: string, patternId: string, i: nat): FlowEdge
  {
    FlowEdge(entryId + "-" + patternId, entryId, patternId, Some("case " + NatToString(i + 1)))
  }

  /** The unlabelled edge from a pattern node to the root of the clause's body. */
  function BodyEdge(patternId: string, bodyId: string): FlowEdge
  {
    FlowEdge(patternId + "-" + bodyId, patternId, bodyId, None)
  }

  /** Clause `i` of a function: a pattern node, the body's subtree, and the edges into both. */
  function ClauseStep(ch: Chart, entryId: string, d: FunctionDefinition, i: nat, currentY: int): Chart
  {
    var patternId := PatternId(ch.nodeId);
    var bodyId := BodyId(ch.nodeId + 1);
    var x := ClauseX(i);
    var patternNode := FlowNode(patternId, x, currentY, PatternLabel(d.patterns), PatternNode);
    Chart(ch.nodeId + 2,
          ch.nodes + [patternNode] + TermAppended(d.body, bodyId, x, currentY + 80),
          ch.edges + [CaseEdge(entryId, patternId, i)] + TermEdges(d.body, bodyId, x, currentY + 80) + [BodyEdge(patternId, bodyId)])
  }

  /** The first `k` clauses of a function: each takes two ids from the counter, one for its pattern and one for its body. */
  function ClausesFlow(ch: Chart, entryId: string, defs: seq<FunctionDefinition>, currentY: int, k: nat): (r: Chart)
    requires k <= |defs|
  {
    if k == 0 then ch
    else ClauseStep(ClausesFlow(ch, entryId, defs, currentY, k - 1), entryId, defs[k - 1], k - 1, currentY)
  }

  /**
   * The entry node of the function at (0, yOffset), then its clauses 80 units
   * lower: one id for the entry and two per clause.
   */
  function FunctionFlow(ch: Chart, name: string, defs: seq<FunctionDefinition>, yOffset: int): (r: Chart)
  {
    var entryId := EntryId(ch.nodeId);
    var entered := Chart(ch.nodeId + 1, ch.nodes + [FlowNode(entryId, 0, yOffset, name, EntryNode)], ch.edges);
    ClausesFlow(entered, entryId, defs, yOffset + 80, |defs|)
  }

  /** The first `k` functions, each 300 units below the previous one, from a fresh counter. */
  function GroupsFlow(gs: seq<Group>, k: nat): (r: Chart)
    requires k <= |gs|
  {
    if k == 0 then Chart(0, [], [])
    else FunctionFlow(GroupsFlow(gs, k - 1), gs[k - 1].name, gs[k - 1].clauses, 300 * (k - 1))
  }

  /** One more function, drawn below the ones before it. */
  lemma GroupsFlowStep(gs: seq<Group>, k: nat)
    requires k < |gs|
    ensures GroupsFlow(gs, k + 1) == FunctionFlow(GroupsFlow(gs, k), gs[k].name, gs[k].clauses, 300 * k)
  {
  }

  /** `generateFlowChart`: the nodes and edges of a whole program, one function after another. */
  function Generate(defs: seq<FunctionDefinition>): (r: (seq<FlowNode>, seq<FlowEdge>))
  {
    var gs := GroupByName(defs);
    var ch := GroupsFlow(gs, |gs|);
    (ch.nodes, ch.edges)
  }
}
