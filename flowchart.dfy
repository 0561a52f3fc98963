/**
 * The flow-chart generator as the source writes it: an object with an id
 * counter and growing node and edge lists, one method per drawing step. Each
 * method is proved to leave the object in the state the corresponding
 * function of `FlowChartSpec` describes.
 */
module FlowChart {
  import opened Wrappers
  import opened Text
  import opened PseudoAst
  import opened FlowChartSpec
  import opened FlowChartGroups

  /** The insertion-ordered map `functionGroups`: its keys in insertion order and its entries. */
  predicate Represents(order: seq<string>, m: map<string, seq<FunctionDefinition>>, gs: seq<Group>)
  {
    && |order| == |gs|
    && (forall k :: 0 <= k < |gs| ==> order[k] in m && gs[k] == Group(order[k], m[order[k]]))
    && (forall n :: n in m ==> n in order)
  }

  /** One iteration of the grouping loop keeps the map in step with `AddToGroups`. */
  lemma RepresentsStep(order: seq<string>, m: map<string, seq<FunctionDefinition>>, gs: seq<Group>, d: FunctionDefinition)
    requires Represents(order, m, gs) && DistinctNames(gs)
    ensures d.name in m ==> Represents(order, m[d.name := m[d.name] + [d]], AddToGroups(gs, d))
    ensures d.name !in m ==> Represents(order + [d.name], m[d.name := [d]], AddToGroups(gs, d))
  {
    if d.name in m {
      var k :| 0 <= k < |order| && order[k] == d.name;
      AddToExisting(gs, d, k);
    } else {
      AddToNew(gs, d);
    }
  }

  /** One iteration of the grouping loop, stated for the prefix of the clauses read so far. */
  lemma GroupClausesStep(definitions: seq<FunctionDefinition>, i: nat, order: seq<string>, m: map<string, seq<FunctionDefinition>>)
    requires i < |definitions| && Represents(order, m, GroupByName(definitions[..i]))
    ensures var d := definitions[i];
            && (d.name in m ==> Represents(order, m[d.name := m[d.name] + [d]], GroupByName(definitions[..i + 1])))
            && (d.name !in m ==> Represents(order + [d.name], m[d.name := [d]], GroupByName(definitions[..i + 1])))
  {
    GroupByNameSpec(definitions[..i]);
    RepresentsStep(order, m, GroupByName(definitions[..i]), definitions[i]);
    GroupByNameSnoc(definitions, i);
  }

  /** One more argument of an application, in each of the three lists. */
  lemma ArgStep(t: Term, id: string, x: int, y: int, k: nat)
    requires t.App? && k < |t.args|
    ensures ArgNodes(t, id, x, y, k + 1)
         == ArgNodes(t, id, x, y, k) + TermNodes(t.args[k], ArgId(id, k), ArgX(x, k, |t.args|), y + 100)
    ensures ArgAppended(t, id, x, y, k + 1)
         == ArgAppended(t, id, x, y, k) + TermAppended(t.args[k], ArgId(id, k), ArgX(x, k, |t.args|), y + 100)
    ensures ArgEdges(t, id, x, y, k + 1)
         == ArgEdges(t, id, x, y, k) + TermEdges(t.args[k], ArgId(id, k), ArgX(x, k, |t.args|), y + 100) + [ArgEdge(id, k)]
  {
  }

  /** The chart `generateFunctionFlow` leaves once its clause loop is done. */
  lemma FunctionFlowFrom(n0: nat, nodes0: seq<FlowNode>, edges0: seq<FlowEdge>, name: string,
                         defs: seq<FunctionDefinition>, yOffset: int, entryId: string, entered: Chart, final: Chart)
    requires entryId == "entry-" + NatToString(n0)
    requires entered == Chart(n0 + 1, nodes0 + [FlowNode(entryId, 0, yOffset, name, EntryNode)], edges0)
    requires final == ClausesFlow(entered, entryId, defs, yOffset + 80, |defs|)
    ensures final == FunctionFlow(Chart(n0, nodes0, edges0), name, defs, yOffset)
  {
  }

  /** One more clause on top of the first `k`. */
  lemma ClausesFlowNext(ch: Chart, entryId: string, defs: seq<FunctionDefinition>, currentY: int, k: nat,
                        before: Chart, after: Chart)
    requires k < |defs| && before == ClausesFlow(ch, entryId, defs, currentY, k)
    requires after == ClauseStep(before, entryId, defs[k], k, currentY)
    ensures after == ClausesFlow(ch, entryId, defs, currentY, k + 1)
  {
  }

  /** The state one turn of the clause loop of `generateFunctionFlow` leaves, as `ClauseStep` gives it. */
  lemma ClauseStepFrom(n0: nat, nodes0: seq<FlowNode>, edges0: seq<FlowEdge>,
                       entryId: string, d: FunctionDefinition, i: nat, currentY: int,
                       patternId: string, bodyId: string, patternLabel: string, bodyNodes: seq<FlowNode>,
                       nodes: seq<FlowNode>, edges: seq<FlowEdge>)
    requires patternId == "pattern-" + NatToString(n0) && bodyId == "body-" + NatToString(n0 + 1)
    requires patternLabel == (if |d.patterns| > 0 then Join(FormatPatterns(d.patterns), " ") else "default")
    requires bodyNodes == TermNodes(d.body, bodyId, 100 + i * 250, currentY + 80)
    requires nodes == nodes0 + [FlowNode(patternId, 100 + i * 250, currentY, patternLabel, PatternNode)]
                      + TermAppended(d.body, bodyId, 100 + i * 250, currentY + 80)
    requires edges == (edges0 + [FlowEdge(entryId + "-" + patternId, entryId, patternId, Some("case " + NatToString(i + 1)))]
                       + TermEdges(d.body, bodyId, 100 + i * 250, currentY + 80))
                      + (if |bodyNodes| > 0 then [FlowEdge(patternId + "-" + bodyNodes[0].id, patternId, bodyNodes[0].id, None)] else [])
    ensures Chart(n0 + 2, nodes, edges) == ClauseStep(Chart(n0, nodes0, edges0), entryId, d, i, currentY)
  {
  }

  /** The three loop invariants of `generateTermFlow`, carried over one argument. */
  lemma ArgLoopStep(t: Term, id: string, x: int, y: int, k: nat,
                    ns: seq<FlowNode>, nodes0: seq<FlowNode>, edges0: seq<FlowEdge>,
                    nodes: seq<FlowNode>, edges: seq<FlowEdge>, argNodes: seq<FlowNode>)
    requires t.App? && k < |t.args|
    requires ns == [RootNode(t, id, x, y)] + ArgNodes(t, id, x, y, k)
    requires nodes == nodes0 + ArgAppended(t, id, x, y, k) + TermAppended(t.args[k], ArgId(id, k), ArgX(x, k, |t.args|), y + 100)
    requires edges == edges0 + ArgEdges(t, id, x, y, k) + TermEdges(t.args[k], ArgId(id, k), ArgX(x, k, |t.args|), y + 100) + [ArgEdge(id, k)]
    requires argNodes == TermNodes(t.args[k], ArgId(id, k), ArgX(x, k, |t.args|), y + 100)
    ensures ns + argNodes == [RootNode(t, id, x, y)] + ArgNodes(t, id, x, y, k + 1)
    ensures nodes == nodes0 + ArgAppended(t, id, x, y, k + 1)
    ensures edges == edges0 + ArgEdges(t, id, x, y, k + 1)
  {
    ArgStep(t, id, x, y, k);
  }

  /** An application's lists are its arguments' lists, all of them. */
  lemma ApplicationUnfold(t: Term, id: string, x: int, y: int)
    requires t.App?
    ensures TermNodes(t, id, x, y) == [RootNode(t, id, x, y)] + ArgNodes(t, id, x, y, |t.args|)
    ensures TermAppended(t, id, x, y) == ArgAppended(t, id, x, y, |t.args|) + TermNodes(t, id, x, y)
    ensures TermEdges(t, id, x, y) == ArgEdges(t, id, x, y, |t.args|)
  {
  }

  class FlowChartGenerator {
    var nodeId: nat
    var nodes: seq<FlowNode>
    var edges: seq<FlowEdge>

    constructor ()
      ensures nodeId == 0 && nodes == [] && edges == []
    {
      nodeId := 0;
      nodes := [];
      edges := [];
    }

    /**
     * `generateFlowChart`: reset the counter and the lists, group the clauses
     * by name, then draw each function 300 units below the previous one. The
     * result depends on the clauses alone, never on an earlier call.
     */
    method GenerateFlowChart(definitions: seq<FunctionDefinition>) returns (ns: seq<FlowNode>, es: seq<FlowEdge>)
      modifies this
      ensures (ns, es) == Generate(definitions)
      ensures Chart(nodeId, nodes, edges) == GroupsFlow(GroupByName(definitions), |GroupByName(definitions)|)
      ensures ns == nodes && es == edges
    {
      nodeId := 0;
      nodes := [];
      edges := [];

      var order, functionGroups := GroupClauses(definitions);
      ghost var gs := GroupByName(definitions);
      assert GroupsFlow(gs, 0) == Chart(0, [], []);

      var yOffset := 0;
      for k := 0 to |order|
        invariant Chart(nodeId, nodes, edges) == GroupsFlow(gs, k)
        invariant yOffset == 300 * k
      {
        assert gs[k] == Group(order[k], functionGroups[order[k]]);
        GroupsFlowStep(gs, k);
        GenerateFunctionFlow(order[k], functionGroups[order[k]], yOffset);
        yOffset := yOffset + 300;
      }
      return nodes, edges;
    }

    /**
     * The first loop of `generateFlowChart`: the map `functionGroups` from
     * each name to its clauses, with its keys in insertion order.
     */
    static method GroupClauses(definitions: seq<FunctionDefinition>)
      returns (order: seq<string>, functionGroups: map<string, seq<FunctionDefinition>>)
      ensures Represents(order, functionGroups, GroupByName(definitions))
    {
      order := [];
      functionGroups := map[];
      for i := 0 to |definitions|
        invariant Represents(order, functionGroups, GroupByName(definitions[..i]))
      {
        var def := definitions[i];
        GroupClausesStep(definitions, i, order, functionGroups);
        if def.name !in functionGroups {
          functionGroups := functionGroups[def.name := []];
          order := order + [def.name];
        }
        functionGroups := functionGroups[def.name := functionGroups[def.name] + [def]];
      }
      assert definitions[..|definitions|] == definitions;
    }

    /**
     * `generateFunctionFlow`: an entry node at (0, yOffset), then for clause
     * `i` a pattern node at (100 + 250 i, yOffset + 80) with an edge
     * `case i+1` into it, the body's subtree 80 units lower, and an edge from
     * the pattern node to the body's root.
     */
    method GenerateFunctionFlow(functionName: string, definitions: seq<FunctionDefinition>, yOffset: int)
      modifies this
      ensures Chart(nodeId, nodes, edges) == FunctionFlow(old(Chart(nodeId, nodes, edges)), functionName, definitions, yOffset)
    {
      ghost var n0, nodes0, edges0 := nodeId, nodes, edges;
      var entryId := "entry-" + NatToString(nodeId);
      nodeId := nodeId + 1;
      nodes := nodes + [FlowNode(entryId, 0, yOffset, functionName, EntryNode)];
      ghost var entered := Chart(nodeId, nodes, edges);

      var currentY := yOffset + 80;
      for index := 0 to |definitions|
        invariant Chart(nodeId, nodes, edges) == ClausesFlow(entered, entryId, definitions, currentY, index)
      {
        ghost var before := Chart(nodeId, nodes, edges);
        DrawClause(entryId, definitions[index], index, currentY);
        ClausesFlowNext(entered, entryId, definitions, currentY, index, before, Chart(nodeId, nodes, edges));
      }
      FunctionFlowFrom(n0, nodes0, edges0, functionName, definitions, yOffset, entryId, entered, Chart(nodeId, nodes, edges));
    }

    /**
     * One turn of the clause loop of `generateFunctionFlow`: the pattern node
     * of clause `i`, its `case` edge, the body's subtree and the edge into it.
     */
    method DrawClause(entryId: string, d: FunctionDefinition, i: nat, currentY: int)
      modifies this
      ensures Chart(nodeId, nodes, edges) == ClauseStep(old(Chart(nodeId, nodes, edges)), entryId, d, i, currentY)
    {
      ghost var n0, nodes0, edges0 := nodeId, nodes, edges;
      var patternId := "pattern-" + NatToString(nodeId);
      nodeId := nodeId + 1;
      var bodyId := "body-" + NatToString(nodeId);
      nodeId := nodeId + 1;

      var patternLabel := if |d.patterns| > 0 then Join(FormatPatterns(d.patterns), " ") else "default";
      nodes := nodes + [FlowNode(patternId, 100 + i * 250, currentY, patternLabel, PatternNode)];
      edges := edges + [FlowEdge(entryId + "-" + patternId, entryId, patternId, Some("case " + NatToString(i + 1)))];

      var bodyNodes := GenerateTermFlow(d.body, bodyId, 100 + i * 250, currentY + 80);
      ghost var edges1 := edges;
      if |bodyNodes| > 0 {
        edges := edges + [FlowEdge(patternId + "-" + bodyNodes[0].id, patternId, bodyNodes[0].id, None)];
      }
      assert edges == edges1 + (if |bodyNodes| > 0 then [FlowEdge(patternId + "-" + bodyNodes[0].id, patternId, bodyNodes[0].id, None)] else []);
      ClauseStepFrom(n0, nodes0, edges0, entryId, d, i, currentY, patternId, bodyId, patternLabel, bodyNodes, nodes, edges);
    }

    /**
     * `generateTermFlow`: the root node of `term`, then for each argument its
     * own list and an edge `arg j+1` to its root. Each call appends the whole
     * list it returns to the chart, so the nodes of an argument are appended
     * once by its own call and once more by every enclosing call.
     */
    method GenerateTermFlow(term: Term, id: string, x: int, y: int) returns (ns: seq<FlowNode>)
      modifies this`nodes, this`edges
      ensures ns == TermNodes(term, id, x, y)
      ensures nodes == old(nodes) + TermAppended(term, id, x, y)
      ensures edges == old(edges) + TermEdges(term, id, x, y)
      decreases term, 1
    {
      match term {
        case Lit(v) =>
          ns := [FlowNode(id, x, y, v, LiteralNode)];
          nodes := nodes + ns;
        case Var(name) =>
          ns := [FlowNode(id, x, y, if name == [] then "var" else name, VariableNode)];
          nodes := nodes + ns;
        case App(f, arguments) =>
          ns := [FlowNode(id, x, y, if f.Var? && f.name != [] then f.name else "apply", ApplicationNode)];
          ghost var nodes0, edges0 := nodes, edges;
          var n := |arguments|;
          for index := 0 to n
            invariant ns == [RootNode(term, id, x, y)] + ArgNodes(term, id, x, y, index)
            invariant nodes == nodes0 + ArgAppended(term, id, x, y, index)
            invariant edges == edges0 + ArgEdges(term, id, x, y, index)
          {
            var argNodes := DrawArgument(term, id, x, y, index);
            ArgLoopStep(term, id, x, y, index, ns, nodes0, edges0, nodes, edges, argNodes);
            ns := ns + argNodes;
          }
          ApplicationUnfold(term, id, x, y);
          nodes := nodes + ns;
      }
    }

    /**
     * One turn of the argument loop of `generateTermFlow`: argument `index`
     * drawn 100 units lower at its offset, then the `arg` edge to its root.
     */
    method DrawArgument(term: Term, id: string, x: int, y: int, index: nat) returns (argNodes: seq<FlowNode>)
      requires term.App? && index < |term.args|
      modifies this`nodes, this`edges
      ensures argNodes == TermNodes(term.args[index], ArgId(id, index), ArgX(x, index, |term.args|), y + 100)
      ensures nodes == old(nodes) + TermAppended(term.args[index], ArgId(id, index), ArgX(x, index, |term.args|), y + 100)
      ensures edges == old(edges) + TermEdges(term.args[index], ArgId(id, index), ArgX(x, index, |term.args|), y + 100)
                       + [ArgEdge(id, index)]
      decreases term, 0
    {
      var n := |term.args|;
      var argId := id + "-arg-" + NatToString(index);
      var argX := x + (2 * index - n + 1) * 75;
      assert argId == ArgId(id, index) && argX == ArgX(x, index, n);
      argNodes := GenerateTermFlow(term.args[index], argId, argX, y + 100);
      if |argNodes| > 0 {
        assert FlowEdge(id + "-" + argNodes[0].id, id, argNodes[0].id, Some("arg " + NatToString(index + 1))) == ArgEdge(id, index);
        edges := edges + [FlowEdge(id + "-" + argNodes[0].id, id, argNodes[0].id, Some("arg " + NatToString(index + 1)))];
      }
    }
  }
}
