/**
 * What the flow chart of a program looks like: how many nodes and edges it
 * has, where each function and clause is drawn, that every edge joins two
 * drawn nodes, and what a pattern label spells.
 */
module FlowChartProperties {
  import opened Wrappers
  import opened Text
  import opened PseudoAst
  import opened FlowChartSpec

  // ---------------------------------------------------------------------------
  // Argument placement
  // ---------------------------------------------------------------------------

  /** The source's fractional offset `(j - n/2 + 0.5) * 150` is the integer offset of `ArgX`. */
  lemma ArgXIsSourceOffset(x: int, j: nat, n: nat)
    ensures (x as real) + ((j as real) - (n as real) / 2.0 + 0.5) * 150.0 == ArgX(x, j, n) as real
  {
  }

  /** Arguments are 150 units apart, left to right, and centred under their parent. */
  lemma ArgXSpacing(x: int, j: nat, n: nat)
    requires j < n
    ensures j + 1 < n ==> ArgX(x, j + 1, n) == ArgX(x, j, n) + 150
    ensures ArgX(x, j, n) - x == x - ArgX(x, n - 1 - j, n)
  {
  }

  // ---------------------------------------------------------------------------
  // Counts of one term's subtree
  // ---------------------------------------------------------------------------

  /** The returned list has one node per term node, and there is one edge fewer. */
  lemma {:induction false} TermCounts(t: Term, id: string, x: int, y: int)
    ensures |TermNodes(t, id, x, y)| == Size(t)
    ensures |TermEdges(t, id, x, y)| == Size(t) - 1
    decreases t, 1
  {
    if t.App? {
      ArgCounts(t, id, x, y, |t.args|);
    }
  }

  lemma {:induction false} ArgCounts(t: Term, id: string, x: int, y: int, k: nat)
    requires t.App? && k <= |t.args|
    ensures |ArgNodes(t, id, x, y, k)| == SizeOfArgs(t, k)
    ensures |ArgEdges(t, id, x, y, k)| == SizeOfArgs(t, k)
    decreases t, 0, k
  {
    if k > 0 {
      ArgCounts(t, id, x, y, k - 1);
      TermCounts(t.args[k - 1], ArgId(id, k - 1), ArgX(x, k - 1, |t.args|), y + 100);
    }
  }

  /**
   * The sum over the nodes of `t` of (depth + 1), the root standing at depth
   * `d`: how often the generator appends the nodes of a term drawn at depth `d`.
   */
  function DepthWeight(t: Term, d: nat): (r: nat)
    ensures r >= d + 1
    decreases t, 1
  {
    if t.App? then d + 1 + ArgsDepthWeight(t, d, |t.args|) else d + 1
  }

  function ArgsDepthWeight(t: Term, d: nat, k: nat): nat
    requires t.App? && k <= |t.args|
    decreases t, 0, k
  {
    if k == 0 then 0 else ArgsDepthWeight(t, d, k - 1) + DepthWeight(t.args[k - 1], d + 1)
  }

  /** One level deeper, every node counts once more. */
  lemma {:induction false} DepthWeightShift(t: Term, d: nat)
    ensures DepthWeight(t, d + 1) == DepthWeight(t, d) + Size(t)
    decreases t, 1
  {
    if t.App? {
      ArgsDepthWeightShift(t, d, |t.args|);
    }
  }

  lemma {:induction false} ArgsDepthWeightShift(t: Term, d: nat, k: nat)
    requires t.App? && k <= |t.args|
    ensures ArgsDepthWeight(t, d + 1, k) == ArgsDepthWeight(t, d, k) + SizeOfArgs(t, k)
    decreases t, 0, k
  {
    if k > 0 {
      ArgsDepthWeightShift(t, d, k - 1);
      DepthWeightShift(t.args[k - 1], d + 1);
    }
  }

  /**
   * Each call appends its whole returned list after its arguments' calls have
   * appended theirs, so a node at depth `d` of the body is appended `d + 1` times.
   */
  lemma {:induction false} AppendedCount(t: Term, id: string, x: int, y: int)
    ensures |TermAppended(t, id, x, y)| == DepthWeight(t, 0)
    decreases t, 1
  {
    if t.App? {
      ArgsAppendedCount(t, id, x, y, |t.args|);
      TermCounts(t, id, x, y);
      assert Size(t) == 1 + SizeOfArgs(t, |t.args|);
    }
  }

  lemma {:induction false} ArgsAppendedCount(t: Term, id: string, x: int, y: int, k: nat)
    requires t.App? && k <= |t.args|
    ensures |ArgAppended(t, id, x, y, k)| + SizeOfArgs(t, k) == ArgsDepthWeight(t, 0, k)
    decreases t, 0, k
  {
    if k > 0 {
      ArgsAppendedCount(t, id, x, y, k - 1);
      AppendedCount(t.args[k - 1], ArgId(id, k - 1), ArgX(x, k - 1, |t.args|), y + 100);
      DepthWeightShift(t.args[k - 1], 0);
    }
  }

  /** Nodes are appended more than once exactly when the body is an application. */
  lemma DuplicatesIffApplication(t: Term)
    ensures DepthWeight(t, 0) >= Size(t)
    ensures DepthWeight(t, 0) == Size(t) <==> !(t.App? && |t.args| > 0)
  {
    if t.App? {
      ArgsDepthWeightAtLeast(t, |t.args|);
    }
  }

  /** Every argument weighs at least its size plus one. */
  lemma {:induction false} ArgsDepthWeightAtLeast(t: Term, k: nat)
    requires t.App? && k <= |t.args|
    ensures ArgsDepthWeight(t, 0, k) >= SizeOfArgs(t, k) + k
    decreases k
  {
    if k > 0 {
      ArgsDepthWeightAtLeast(t, k - 1);
      DepthWeightShift(t.args[k - 1], 0);
    }
  }

  // ---------------------------------------------------------------------------
  // Counts of the whole chart
  // ---------------------------------------------------------------------------

  /** The nodes one clause adds: its pattern node and everything its body appends. */
  function ClauseNodeCount(d: FunctionDefinition): nat
  {
    1 + DepthWeight(d.body, 0)
  }

  /** The edges one clause adds: the `case` edge, the body edge and the body's own edges. */
  function ClauseEdgeCount(d: FunctionDefinition): nat
  {
    1 + Size(d.body)
  }

  /** Each clause counts once. */
  function OneClause(d: FunctionDefinition): nat
  {
    1
  }

  /** The sum of `w` over a list of clauses. */
  function ClausesTotal(defs: seq<FunctionDefinition>, w: FunctionDefinition -> nat): nat
  {
    if defs == [] then 0 else ClausesTotal(defs[..|defs| - 1], w) + w(defs[|defs| - 1])
  }

  /** The sum of `w` over the clauses of every group. */
  function GroupsTotal(gs: seq<Group>, w: FunctionDefinition -> nat): nat
  {
    if gs == [] then 0 else GroupsTotal(gs[..|gs| - 1], w) + ClausesTotal(gs[|gs| - 1].clauses, w)
  }

  lemma {:induction false} ClausesTotalAppend(a: seq<FunctionDefinition>, b: seq<FunctionDefinition>, w: FunctionDefinition -> nat)
    ensures ClausesTotal(a + b, w) == ClausesTotal(a, w) + ClausesTotal(b, w)
    decreases |b|
  {
    if b == [] {
      assert a + b == a;
    } else {
      ClausesTotalAppend(a, b[..|b| - 1], w);
      assert (a + b)[..|a + b| - 1] == a + b[..|b| - 1];
    }
  }

  lemma {:induction false} GroupsTotalAppend(a: seq<Group>, b: seq<Group>, w: FunctionDefinition -> nat)
    ensures GroupsTotal(a + b, w) == GroupsTotal(a, w) + GroupsTotal(b, w)
    decreases |b|
  {
    if b == [] {
      assert a + b == a;
    } else {
      GroupsTotalAppend(a, b[..|b| - 1], w);
      assert (a + b)[..|a + b| - 1] == a + b[..|b| - 1];
    }
  }

  /** Filing a clause into its group adds its weight to the total. */
  lemma {:induction false} AddToGroupsTotal(gs: seq<Group>, d: FunctionDefinition, w: FunctionDefinition -> nat)
    ensures GroupsTotal(AddToGroups(gs, d), w) == GroupsTotal(gs, w) + w(d)
    decreases |gs|
  {
    if gs == [] {
      assert [d][..0] == [];
      assert GroupsTotal([Group(d.name, [d])], w) == ClausesTotal([d], w);
    } else {
      var g := gs[0];
      assert gs == [g] + gs[1..];
      GroupsTotalAppend([g], gs[1..], w);
      assert GroupsTotal([g], w) == ClausesTotal(g.clauses, w);
      if g.name == d.name {
        var g' := Group(g.name, g.clauses + [d]);
        GroupsTotalAppend([g'], gs[1..], w);
        assert GroupsTotal([g'], w) == ClausesTotal(g.clauses + [d], w);
        assert (g.clauses + [d])[..|g.clauses|] == g.clauses;
      } else {
        AddToGroupsTotal(gs[1..], d, w);
        GroupsTotalAppend([g], AddToGroups(gs[1..], d), w);
      }
    }
  }

  /** Grouping by name neither loses nor repeats a clause. */
  lemma {:induction false} GroupByNameTotal(defs: seq<FunctionDefinition>, w: FunctionDefinition -> nat)
    ensures GroupsTotal(GroupByName(defs), w) == ClausesTotal(defs, w)
    decreases |defs|
  {
    if defs != [] {
      GroupByNameTotal(defs[..|defs| - 1], w);
      AddToGroupsTotal(GroupByName(defs[..|defs| - 1]), defs[|defs| - 1], w);
    }
  }

  lemma ClausesTotalPrefix(defs: seq<FunctionDefinition>, k: nat, w: FunctionDefinition -> nat)
    requires 0 < k <= |defs|
    ensures ClausesTotal(defs[..k], w) == ClausesTotal(defs[..k - 1], w) + w(defs[k - 1])
  {
    assert defs[..k][..k - 1] == defs[..k - 1];
  }

  /** One clause takes two ids, and adds its pattern node, its body's nodes and its edges. */
  lemma ClauseStepCounts(ch: Chart, entryId: string, d: FunctionDefinition, i: nat, currentY: int, after: Chart)
    requires after == ClauseStep(ch, entryId, d, i, currentY)
    ensures after.nodeId == ch.nodeId + 2
    ensures |after.nodes| == |ch.nodes| + ClauseNodeCount(d)
    ensures |after.edges| == |ch.edges| + ClauseEdgeCount(d)
  {
    AppendedCount(d.body, BodyId(ch.nodeId + 1), ClauseX(i), currentY + 80);
    TermCounts(d.body, BodyId(ch.nodeId + 1), ClauseX(i), currentY + 80);
  }

  /** Counting each clause once counts the clauses. */
  lemma {:induction false} OneClauseTotal(defs: seq<FunctionDefinition>, k: nat)
    requires k <= |defs|
    ensures ClausesTotal(defs[..k], OneClause) == k
  {
    if k > 0 {
      OneClauseTotal(defs, k - 1);
      ClausesTotalPrefix(defs, k, OneClause);
    }
  }

  /** The counts after `k - 1` clauses and the counts of clause `k` give the counts after `k` clauses. */
  lemma ClausesCountsStep(ch: Chart, defs: seq<FunctionDefinition>, k: nat, before: Chart, after: Chart)
    requires 0 < k <= |defs|
    requires before.nodeId == ch.nodeId + 2 * (k - 1)
    requires |before.nodes| == |ch.nodes| + ClausesTotal(defs[..k - 1], ClauseNodeCount)
    requires |before.edges| == |ch.edges| + ClausesTotal(defs[..k - 1], ClauseEdgeCount)
    requires after.nodeId == before.nodeId + 2
    requires |after.nodes| == |before.nodes| + ClauseNodeCount(defs[k - 1])
    requires |after.edges| == |before.edges| + ClauseEdgeCount(defs[k - 1])
    ensures after.nodeId == ch.nodeId + 2 * k
    ensures |after.nodes| == |ch.nodes| + ClausesTotal(defs[..k], ClauseNodeCount)
    ensures |after.edges| == |ch.edges| + ClausesTotal(defs[..k], ClauseEdgeCount)
  {
    ClausesTotalPrefix(defs, k, ClauseNodeCount);
    ClausesTotalPrefix(defs, k, ClauseEdgeCount);
  }

  /** Every clause takes two ids, and adds its nodes and edges. */
  lemma {:induction false} ClausesFlowCounts(ch: Chart, entryId: string, defs: seq<FunctionDefinition>, currentY: int, k: nat)
    requires k <= |defs|
    ensures ClausesFlow(ch, entryId, defs, currentY, k).nodeId == ch.nodeId + 2 * k
    ensures |ClausesFlow(ch, entryId, defs, currentY, k).nodes| == |ch.nodes| + ClausesTotal(defs[..k], ClauseNodeCount)
    ensures |ClausesFlow(ch, entryId, defs, currentY, k).edges| == |ch.edges| + ClausesTotal(defs[..k], ClauseEdgeCount)
  {
    if k > 0 {
      var before := ClausesFlow(ch, entryId, defs, currentY, k - 1);
      var after := ClausesFlow(ch, entryId, defs, currentY, k);
      ClausesFlowCounts(ch, entryId, defs, currentY, k - 1);
      ClausesFlowLast(ch, entryId, defs, currentY, k, before, after);
      ClauseStepCounts(before, entryId, defs[k - 1], k - 1, currentY, after);
      ClausesCountsStep(ch, defs, k, before, after);
    }
  }

  /** `ClausesFlowCounts` for all the clauses. */
  lemma ClausesFlowCountsAll(ch: Chart, entryId: string, defs: seq<FunctionDefinition>, currentY: int, final: Chart)
    requires final == ClausesFlow(ch, entryId, defs, currentY, |defs|)
    ensures final.nodeId == ch.nodeId + 2 * ClausesTotal(defs, OneClause)
    ensures |final.nodes| == |ch.nodes| + ClausesTotal(defs, ClauseNodeCount)
    ensures |final.edges| == |ch.edges| + ClausesTotal(defs, ClauseEdgeCount)
  {
    ClausesFlowCounts(ch, entryId, defs, currentY, |defs|);
    OneClauseTotal(defs, |defs|);
    assert defs[..|defs|] == defs;
  }

  /** A function takes one id and one node for its entry, then its clauses' share. */
  lemma FunctionFlowCounts(ch: Chart, name: string, defs: seq<FunctionDefinition>, yOffset: int)
    ensures FunctionFlow(ch, name, defs, yOffset).nodeId == ch.nodeId + 1 + 2 * ClausesTotal(defs, OneClause)
    ensures |FunctionFlow(ch, name, defs, yOffset).nodes| == |ch.nodes| + 1 + ClausesTotal(defs, ClauseNodeCount)
    ensures |FunctionFlow(ch, name, defs, yOffset).edges| == |ch.edges| + ClausesTotal(defs, ClauseEdgeCount)
  {
    ClausesFlowCountsAll(Chart(ch.nodeId + 1, ch.nodes + [FlowNode(EntryId(ch.nodeId), 0, yOffset, name, EntryNode)], ch.edges),
                         EntryId(ch.nodeId), defs, yOffset + 80, FunctionFlow(ch, name, defs, yOffset));
  }

  lemma {:induction false} GroupsFlowCounts(gs: seq<Group>, k: nat)
    requires k <= |gs|
    ensures GroupsFlow(gs, k).nodeId == k + 2 * GroupsTotal(gs[..k], OneClause)
    ensures |GroupsFlow(gs, k).nodes| == k + GroupsTotal(gs[..k], ClauseNodeCount)
    ensures |GroupsFlow(gs, k).edges| == GroupsTotal(gs[..k], ClauseEdgeCount)
  {
    if k > 0 {
      GroupsFlowCounts(gs, k - 1);
      FunctionFlowCounts(GroupsFlow(gs, k - 1), gs[k - 1].name, gs[k - 1].clauses, 300 * (k - 1));
      assert gs[..k][..k - 1] == gs[..k - 1];
    }
  }

  /**
   * The whole chart: one edge per clause into its pattern node and one per
   * term node of its body; one node per function, one per clause, and each
   * body node once for itself and once more for every ancestor.
   */
  lemma GenerateCounts(defs: seq<FunctionDefinition>)
    ensures |Generate(defs).1| == ClausesTotal(defs, ClauseEdgeCount)
    ensures |Generate(defs).0| == |GroupByName(defs)| + ClausesTotal(defs, ClauseNodeCount)
  {
    var gs := GroupByName(defs);
    GroupsFlowCounts(gs, |gs|);
    assert gs[..|gs|] == gs;
    GroupByNameTotal(defs, ClauseEdgeCount);
    GroupByNameTotal(defs, ClauseNodeCount);
  }

  /** A program draws some node exactly when it has a clause, and no clauses draw no edges. */
  lemma GenerateEmpty(defs: seq<FunctionDefinition>)
    ensures Generate(defs).0 == [] <==> defs == []
    ensures defs == [] ==> Generate(defs).1 == []
  {
    GenerateCounts(defs);
  }

  // ---------------------------------------------------------------------------
  // Where each function and clause is drawn
  // ---------------------------------------------------------------------------

  /** Clause `i` as three appended pieces of nodes and edges. */
  lemma ClauseStepShape(ch: Chart, entryId: string, d: FunctionDefinition, i: nat, currentY: int)
    ensures var c := ch.nodeId;
            var after := ClauseStep(ch, entryId, d, i, currentY);
            && after.nodeId == c + 2
            && after.nodes == ch.nodes + [FlowNode(PatternId(c), ClauseX(i), currentY, PatternLabel(d.patterns), PatternNode)]
                              + TermAppended(d.body, BodyId(c + 1), ClauseX(i), currentY + 80)
            && after.edges == ch.edges + [CaseEdge(entryId, PatternId(c), i)]
                              + TermEdges(d.body, BodyId(c + 1), ClauseX(i), currentY + 80)
                              + [BodyEdge(PatternId(c), BodyId(c + 1))]
  {
  }

  /** `b` is `a` with more nodes and edges appended. */
  predicate Extends(a: Chart, b: Chart)
  {
    a.nodes <= b.nodes && a.edges <= b.edges
  }

  lemma ExtendsTrans(a: Chart, b: Chart, c: Chart)
    requires Extends(a, b) && Extends(b, c)
    ensures Extends(a, c)
  {
    assert c.nodes[..|b.nodes|][..|a.nodes|] == c.nodes[..|a.nodes|];
    assert c.edges[..|b.edges|][..|a.edges|] == c.edges[..|a.edges|];
  }

  lemma ClauseStepExtends(ch: Chart, entryId: string, d: FunctionDefinition, i: nat, currentY: int)
    ensures Extends(ch, ClauseStep(ch, entryId, d, i, currentY))
  {
    ClauseStepShape(ch, entryId, d, i, currentY);
  }

  /** Drawing more clauses only appends to the lists. */
  lemma {:induction false} ClausesFlowGrows(ch: Chart, entryId: string, defs: seq<FunctionDefinition>, currentY: int, k: nat, m: nat)
    requires k <= m <= |defs|
    ensures Extends(ClausesFlow(ch, entryId, defs, currentY, k), ClausesFlow(ch, entryId, defs, currentY, m))
    decreases m
  {
    if k < m {
      ClausesFlowGrows(ch, entryId, defs, currentY, k, m - 1);
      var before := ClausesFlow(ch, entryId, defs, currentY, m - 1);
      ClauseStepExtends(before, entryId, defs[m - 1], m - 1, currentY);
      ExtendsTrans(ClausesFlow(ch, entryId, defs, currentY, k), before, ClausesFlow(ch, entryId, defs, currentY, m));
    }
  }

  /** Drawing a function only appends to the lists. */
  lemma FunctionFlowGrows(ch: Chart, name: string, defs: seq<FunctionDefinition>, yOffset: int)
    ensures Extends(ch, FunctionFlow(ch, name, defs, yOffset))
  {
    var entered := Chart(ch.nodeId + 1, ch.nodes + [FlowNode(EntryId(ch.nodeId), 0, yOffset, name, EntryNode)], ch.edges);
    ClausesFlowGrows(entered, EntryId(ch.nodeId), defs, yOffset + 80, 0, |defs|);
    assert Extends(ch, entered);
    ExtendsTrans(ch, entered, FunctionFlow(ch, name, defs, yOffset));
  }

  /** Drawing more functions only appends to the lists. */
  lemma {:induction false} GroupsFlowGrows(gs: seq<Group>, k: nat, m: nat)
    requires k <= m <= |gs|
    ensures Extends(GroupsFlow(gs, k), GroupsFlow(gs, m))
    decreases m
  {
    if k < m {
      GroupsFlowGrows(gs, k, m - 1);
      var before := GroupsFlow(gs, m - 1);
      FunctionFlowGrows(before, gs[m - 1].name, gs[m - 1].clauses, 300 * (m - 1));
      ExtendsTrans(GroupsFlow(gs, k), before, GroupsFlow(gs, m));
    }
  }

  /** The root of a term is among the nodes its call appends. */
  lemma RootAppended(t: Term, id: string, x: int, y: int)
    ensures RootNode(t, id, x, y) in TermAppended(t, id, x, y)
  {
    var ns := TermNodes(t, id, x, y);
    assert ns[0] in ns;
  }

  /**
   * Clause `d`, number `i` of its function, drawn with ids `c` and `c + 1`
   * from `currentY` under the entry `entryId`: its pattern node at
   * (100 + 250 i, currentY), its body's root 80 units lower, a `case i+1`
   * edge from the entry and an edge from the pattern node to the body's root.
   */
  predicate ClauseDrawn(ch: Chart, entryId: string, c: nat, d: FunctionDefinition, i: nat, currentY: int)
  {
    && AllIn([FlowNode(PatternId(c), ClauseX(i), currentY, PatternLabel(d.patterns), PatternNode),
              RootNode(d.body, BodyId(c + 1), ClauseX(i), currentY + 80)], ch.nodes)
    && AllIn([CaseEdge(entryId, PatternId(c), i), BodyEdge(PatternId(c), BodyId(c + 1))], ch.edges)
  }

  /** Every element of `xs` occurs in `ys`. */
  predicate AllIn<T(==)>(xs: seq<T>, ys: seq<T>)
  {
    forall x :: x in xs ==> x in ys
  }

  lemma AllInPair<T>(x: T, y: T, ys: seq<T>)
    requires x in ys && y in ys
    ensures AllIn([x, y], ys)
  {
  }

  /** What occurs in a list occurs in every list it begins. */
  lemma AllInPrefix<T>(xs: seq<T>, a: seq<T>, b: seq<T>)
    requires AllIn(xs, a) && a <= b
    ensures AllIn(xs, b)
  {
    forall x | x in xs
      ensures x in b
    {
      var j :| 0 <= j < |a| && a[j] == x;
      assert b[j] == x;
    }
  }

  /** What clause `i` draws, found among the lists it extends. */
  lemma ClauseStepDrawn(ch: Chart, entryId: string, d: FunctionDefinition, i: nat, currentY: int)
    ensures ClauseDrawn(ClauseStep(ch, entryId, d, i, currentY), entryId, ch.nodeId, d, i, currentY)
  {
    var c := ch.nodeId;
    ClauseStepShape(ch, entryId, d, i, currentY);
    RootAppended(d.body, BodyId(c + 1), ClauseX(i), currentY + 80);
    var after := ClauseStep(ch, entryId, d, i, currentY);
    assert after.nodes[|ch.nodes|] == FlowNode(PatternId(c), ClauseX(i), currentY, PatternLabel(d.patterns), PatternNode);
    assert after.edges[|ch.edges|] == CaseEdge(entryId, PatternId(c), i);
    assert after.edges[|after.edges| - 1] == BodyEdge(PatternId(c), BodyId(c + 1));
    AllInPair(FlowNode(PatternId(c), ClauseX(i), currentY, PatternLabel(d.patterns), PatternNode),
              RootNode(d.body, BodyId(c + 1), ClauseX(i), currentY + 80), after.nodes);
    AllInPair(CaseEdge(entryId, PatternId(c), i), BodyEdge(PatternId(c), BodyId(c + 1)), after.edges);
  }

  lemma ExtendsSameLists(a: Chart, b: Chart, c: Chart)
    requires Extends(a, b) && c.nodes == b.nodes && c.edges == b.edges
    ensures Extends(a, c)
  {
  }

  lemma ExtendsNode(a: Chart, b: Chart, n: FlowNode)
    requires Extends(a, b) && n in a.nodes
    ensures n in b.nodes
  {
    var j :| 0 <= j < |a.nodes| && a.nodes[j] == n;
    assert b.nodes[j] == n;
  }

  lemma ExtendsEdge(a: Chart, b: Chart, e: FlowEdge)
    requires Extends(a, b) && e in a.edges
    ensures e in b.edges
  {
    var j :| 0 <= j < |a.edges| && a.edges[j] == e;
    assert b.edges[j] == e;
  }

  /** What is drawn stays drawn. */
  lemma ExtendsDrawn(a: Chart, b: Chart, entryId: string, c: nat, d: FunctionDefinition, i: nat, currentY: int)
    requires Extends(a, b) && ClauseDrawn(a, entryId, c, d, i, currentY)
    ensures ClauseDrawn(b, entryId, c, d, i, currentY)
  {
    AllInPrefix([FlowNode(PatternId(c), ClauseX(i), currentY, PatternLabel(d.patterns), PatternNode),
                 RootNode(d.body, BodyId(c + 1), ClauseX(i), currentY + 80)], a.nodes, b.nodes);
    AllInPrefix([CaseEdge(entryId, PatternId(c), i), BodyEdge(PatternId(c), BodyId(c + 1))], a.edges, b.edges);
  }

  /** Clause `i` of a function drawn from `currentY` takes the ids `2 i` after the counter's start. */
  lemma ClauseLayout(ch: Chart, entryId: string, defs: seq<FunctionDefinition>, currentY: int, i: nat)
    requires i < |defs|
    ensures ClauseDrawn(ClausesFlow(ch, entryId, defs, currentY, |defs|), entryId, ch.nodeId + 2 * i, defs[i], i, currentY)
  {
    var before := ClausesFlow(ch, entryId, defs, currentY, i);
    ClausesFlowCounts(ch, entryId, defs, currentY, i);
    ClausesFlowGrows(ch, entryId, defs, currentY, i + 1, |defs|);
    ClauseStepDrawn(before, entryId, defs[i], i, currentY);
    ExtendsDrawn(ClausesFlow(ch, entryId, defs, currentY, i + 1), ClausesFlow(ch, entryId, defs, currentY, |defs|),
                 entryId, before.nodeId, defs[i], i, currentY);
  }

  /**
   * A function's entry node at (0, yOffset), and its clause `i` 80 units
   * lower, in any chart `all` that begins with what the function draws.
   */
  lemma FunctionLayout(ch: Chart, name: string, defs: seq<FunctionDefinition>, yOffset: int, i: nat, all: Chart)
    requires i < |defs| && Extends(FunctionFlow(ch, name, defs, yOffset), all)
    ensures FlowNode(EntryId(ch.nodeId), 0, yOffset, name, EntryNode) in all.nodes
    ensures ClauseDrawn(all, EntryId(ch.nodeId), ch.nodeId + 1 + 2 * i, defs[i], i, yOffset + 80)
  {
    var entry := FlowNode(EntryId(ch.nodeId), 0, yOffset, name, EntryNode);
    var entered := Chart(ch.nodeId + 1, ch.nodes + [entry], ch.edges);
    var drawn := ClausesFlow(entered, EntryId(ch.nodeId), defs, yOffset + 80, |defs|);
    assert drawn == FunctionFlow(ch, name, defs, yOffset);
    ClauseLayout(entered, EntryId(ch.nodeId), defs, yOffset + 80, i);
    ExtendsDrawn(drawn, all, EntryId(ch.nodeId), ch.nodeId + 1 + 2 * i, defs[i], i, yOffset + 80);
    ClausesFlowGrows(entered, EntryId(ch.nodeId), defs, yOffset + 80, 0, |defs|);
    ExtendsTrans(entered, drawn, all);
    assert entered.nodes[|ch.nodes|] == entry;
    ExtendsNode(entered, all, entry);
  }

  /** The chart drawn after the `k`-th function already begins the whole chart. */
  lemma GroupStepExtends(defs: seq<FunctionDefinition>, gs: seq<Group>, k: nat, c: nat)
    requires gs == GroupByName(defs) && k < |gs|
    ensures GroupsFlow(gs, k + 1) == FunctionFlow(GroupsFlow(gs, k), gs[k].name, gs[k].clauses, 300 * k)
    ensures Extends(GroupsFlow(gs, k + 1), Chart(c, Generate(defs).0, Generate(defs).1))
  {
    GroupsFlowStep(gs, k);
    GroupsFlowGrows(gs, k + 1, |gs|);
    ExtendsSameLists(GroupsFlow(gs, k + 1), GroupsFlow(gs, |gs|), Chart(c, Generate(defs).0, Generate(defs).1));
  }

  /** `FunctionLayout` for the `k`-th of a list of functions drawn 300 units apart. */
  lemma GroupsLayout(gs: seq<Group>, k: nat, i: nat, before: Chart, next: Chart, all: Chart, c: nat)
    requires k < |gs| && i < |gs[k].clauses| && c == before.nodeId
    requires next == FunctionFlow(before, gs[k].name, gs[k].clauses, 300 * k) && Extends(next, all)
    ensures FlowNode(EntryId(c), 0, 300 * k, gs[k].name, EntryNode) in all.nodes
    ensures ClauseDrawn(all, EntryId(c), c + 1 + 2 * i, gs[k].clauses[i], i, 300 * k + 80)
  {
    FunctionLayout(before, gs[k].name, gs[k].clauses, 300 * k, i, all);
  }

  /**
   * In the chart of a program, the `k`-th function (in order of first
   * appearance) has its entry node at (0, 300 k), and its clause `i` is drawn
   * with its pattern node at (100 + 250 i, 300 k + 80) and its body's root at
   * (100 + 250 i, 300 k + 160); `c` is the counter when the function is reached.
   */
  lemma ChartLayout(defs: seq<FunctionDefinition>, k: nat, i: nat, gs: seq<Group>, c: nat)
    requires gs == GroupByName(defs) && k < |gs| && i < |gs[k].clauses|
    requires c == GroupsFlow(gs, k).nodeId
    ensures FlowNode(EntryId(c), 0, 300 * k, gs[k].name, EntryNode) in Generate(defs).0
    ensures ClauseDrawn(Chart(c, Generate(defs).0, Generate(defs).1), EntryId(c), c + 1 + 2 * i, gs[k].clauses[i], i, 300 * k + 80)
  {
    GroupStepExtends(defs, gs, k, c);
    GroupsLayout(gs, k, i, GroupsFlow(gs, k), GroupsFlow(gs, k + 1), Chart(c, Generate(defs).0, Generate(defs).1), c);
  }

  // ---------------------------------------------------------------------------
  // Every edge joins two drawn nodes
  // ---------------------------------------------------------------------------

  /** The ids of a list of nodes. */
  function Ids(ns: seq<FlowNode>): set<string>
  {
    set n | n in ns :: n.id
  }

  /** Every edge leaves and enters a node of the list. */
  predicate Closed(ns: seq<FlowNode>, es: seq<FlowEdge>)
  {
    forall e :: e in es ==> e.source in Ids(ns) && e.target in Ids(ns)
  }

  lemma IdsAppend(a: seq<FlowNode>, b: seq<FlowNode>)
    ensures Ids(a + b) == Ids(a) + Ids(b)
  {
    forall s | s in Ids(a + b) ensures s in Ids(a) + Ids(b) {
      var n :| n in a + b && n.id == s;
    }
    forall s | s in Ids(a) + Ids(b) ensures s in Ids(a + b) {
      if s in Ids(a) {
        var n :| n in a && n.id == s;
        assert n in a + b;
      } else {
        var n :| n in b && n.id == s;
        assert n in a + b;
      }
    }
  }

  /** The edges of a term's subtree join nodes of the list its call returns. */
  lemma {:induction false} TermEdgesClosed(t: Term, id: string, x: int, y: int)
    ensures Closed(TermNodes(t, id, x, y), TermEdges(t, id, x, y))
    decreases t, 1
  {
    if t.App? {
      ArgEdgesClosed(t, id, x, y, |t.args|);
    }
  }

  lemma {:induction false} ArgEdgesClosed(t: Term, id: string, x: int, y: int, k: nat)
    requires t.App? && k <= |t.args|
    ensures Closed([RootNode(t, id, x, y)] + ArgNodes(t, id, x, y, k), ArgEdges(t, id, x, y, k))
    decreases t, 0, k
  {
    if k > 0 {
      ArgEdgesClosed(t, id, x, y, k - 1);
      var arg := t.args[k - 1];
      var argId := ArgId(id, k - 1);
      var argX := ArgX(x, k - 1, |t.args|);
      TermEdgesClosed(arg, argId, argX, y + 100);
      var front := [RootNode(t, id, x, y)] + ArgNodes(t, id, x, y, k - 1);
      var sub := TermNodes(arg, argId, argX, y + 100);
      assert [RootNode(t, id, x, y)] + ArgNodes(t, id, x, y, k) == front + sub;
      IdsAppend(front, sub);
      assert front[0].id == id;
      assert sub[0].id == argId;
    }
  }

  /** What a call appends holds every node it returns. */
  lemma AppendedIds(t: Term, id: string, x: int, y: int)
    ensures Ids(TermNodes(t, id, x, y)) <= Ids(TermAppended(t, id, x, y))
  {
    if t.App? {
      IdsAppend(ArgAppended(t, id, x, y, |t.args|), TermNodes(t, id, x, y));
    }
  }

  /** A clause keeps every edge joined, given that its entry node is drawn. */
  lemma ClauseStepClosed(ch: Chart, entryId: string, d: FunctionDefinition, i: nat, currentY: int, after: Chart)
    requires Closed(ch.nodes, ch.edges) && entryId in Ids(ch.nodes)
    requires after == ClauseStep(ch, entryId, d, i, currentY)
    ensures Closed(after.nodes, after.edges) && Ids(ch.nodes) <= Ids(after.nodes)
  {
    var c := ch.nodeId;
    var x := ClauseX(i);
    ClauseStepShape(ch, entryId, d, i, currentY);
    var patternNode := FlowNode(PatternId(c), x, currentY, PatternLabel(d.patterns), PatternNode);
    var appended := TermAppended(d.body, BodyId(c + 1), x, currentY + 80);
    IdsAppend(ch.nodes, [patternNode]);
    IdsAppend(ch.nodes + [patternNode], appended);
    assert patternNode in [patternNode];
    TermEdgesClosed(d.body, BodyId(c + 1), x, currentY + 80);
    AppendedIds(d.body, BodyId(c + 1), x, currentY + 80);
    var ns := TermNodes(d.body, BodyId(c + 1), x, currentY + 80);
    assert ns[0] in ns;
    var middle := TermEdges(d.body, BodyId(c + 1), x, currentY + 80);
    forall e | e in after.edges
      ensures e.source in Ids(after.nodes) && e.target in Ids(after.nodes)
    {
      if e in ch.edges {
      } else if e in middle {
      } else {
        assert e == CaseEdge(entryId, PatternId(c), i) || e == BodyEdge(PatternId(c), BodyId(c + 1));
      }
    }
  }

  /** The last of `k` clauses is drawn on top of the first `k - 1`. */
  lemma ClausesFlowLast(ch: Chart, entryId: string, defs: seq<FunctionDefinition>, currentY: int, k: nat,
                        before: Chart, after: Chart)
    requires 0 < k <= |defs|
    requires before == ClausesFlow(ch, entryId, defs, currentY, k - 1)
    requires after == ClausesFlow(ch, entryId, defs, currentY, k)
    ensures after == ClauseStep(before, entryId, defs[k - 1], k - 1, currentY)
  {
  }

  lemma {:induction false} ClausesFlowClosed(ch: Chart, entryId: string, defs: seq<FunctionDefinition>, currentY: int, k: nat,
                                            after: Chart)
    requires k <= |defs|
    requires Closed(ch.nodes, ch.edges) && entryId in Ids(ch.nodes)
    requires after == ClausesFlow(ch, entryId, defs, currentY, k)
    ensures Closed(after.nodes, after.edges) && Ids(ch.nodes) <= Ids(after.nodes)
  {
    if k > 0 {
      var before := ClausesFlow(ch, entryId, defs, currentY, k - 1);
      ClausesFlowClosed(ch, entryId, defs, currentY, k - 1, before);
      assert entryId in Ids(before.nodes);
      ClausesFlowLast(ch, entryId, defs, currentY, k, before, after);
      ClauseStepClosed(before, entryId, defs[k - 1], k - 1, currentY, after);
    }
  }

  lemma FunctionFlowClosed(ch: Chart, name: string, defs: seq<FunctionDefinition>, yOffset: int)
    requires Closed(ch.nodes, ch.edges)
    ensures var after := FunctionFlow(ch, name, defs, yOffset);
            Closed(after.nodes, after.edges)
  {
    var entry := FlowNode(EntryId(ch.nodeId), 0, yOffset, name, EntryNode);
    IdsAppend(ch.nodes, [entry]);
    assert entry in [entry];
    ClausesFlowClosed(Chart(ch.nodeId + 1, ch.nodes + [entry], ch.edges), EntryId(ch.nodeId), defs, yOffset + 80, |defs|,
                      FunctionFlow(ch, name, defs, yOffset));
  }

  lemma {:induction false} GroupsFlowClosed(gs: seq<Group>, k: nat)
    requires k <= |gs|
    ensures Closed(GroupsFlow(gs, k).nodes, GroupsFlow(gs, k).edges)
  {
    if k > 0 {
      GroupsFlowClosed(gs, k - 1);
      FunctionFlowClosed(GroupsFlow(gs, k - 1), gs[k - 1].name, gs[k - 1].clauses, 300 * (k - 1));
    }
  }

  /** Every edge of a program's chart leaves and enters one of its nodes. */
  lemma GenerateClosed(defs: seq<FunctionDefinition>)
    ensures Closed(Generate(defs).0, Generate(defs).1)
  {
    var gs := GroupByName(defs);
    GroupsFlowClosed(gs, |gs|);
  }

  // ---------------------------------------------------------------------------
  // Pattern labels
  // ---------------------------------------------------------------------------

  /** The names of a pattern in pre-order: its own, then those of its arguments from left to right. */
  function PreorderNames(p: Pattern): (r: seq<string>)
    ensures r != [] && r[0] == p.name
    decreases p, 1
  {
    if p.PCon? then [p.name] + PatternsNames(p.args) else [p.name]
  }

  function PatternsNames(ps: seq<Pattern>): (r: seq<string>)
    ensures ps != [] ==> r != []
    decreases ps, 0
  {
    if ps == [] then [] else PreorderNames(ps[0]) + PatternsNames(ps[1..])
  }

  /** `formatPattern` drops every parenthesis: what is left is the names in pre-order, one space apart. */
  lemma {:induction false} FormatPatternNames(p: Pattern)
    ensures FormatPattern(p) == Join(PreorderNames(p), " ")
    decreases p, 1
  {
    if p.PCon? && |p.args| > 0 {
      FormatPatternsNames(p.args);
      JoinAppend([p.name], PatternsNames(p.args), " ");
    }
  }

  lemma {:induction false} FormatPatternsNames(ps: seq<Pattern>)
    requires ps != []
    ensures Join(FormatPatterns(ps), " ") == Join(PatternsNames(ps), " ")
    decreases ps, 0
  {
    FormatPatternNames(ps[0]);
    if |ps| > 1 {
      FormatPatternsNames(ps[1..]);
      JoinAppend(PreorderNames(ps[0]), PatternsNames(ps[1..]), " ");
    } else {
      assert ps[1..] == [];
      assert FormatPatterns(ps) == [FormatPattern(ps[0])] + [];
      assert PatternsNames(ps) == PreorderNames(ps[0]) + [] == PreorderNames(ps[0]);
      assert Join(FormatPatterns(ps), " ") == FormatPattern(ps[0]);
    }
  }

  /** The label of a pattern node: `default` for a clause without patterns, else every name in pre-order. */
  lemma PatternLabelNames(ps: seq<Pattern>)
    ensures ps == [] ==> PatternLabel(ps) == "default"
    ensures ps != [] ==> PatternLabel(ps) == Join(PatternsNames(ps), " ")
  {
    if ps != [] {
      FormatPatternsNames(ps);
    }
  }

  /**
   * When every name is a parser token (non-empty, without spaces or
   * parentheses), the label holds no parenthesis and splitting it at spaces
   * gives back the names.
   */
  lemma PatternLabelSplits(ps: seq<Pattern>)
    requires ps != []
    requires forall k :: 0 <= k < |PatternsNames(ps)| ==> ' ' !in PatternsNames(ps)[k]
    requires forall k :: 0 <= k < |PatternsNames(ps)| ==> '(' !in PatternsNames(ps)[k] && ')' !in PatternsNames(ps)[k]
    ensures Split(PatternLabel(ps), " ") == PatternsNames(ps)
    ensures '(' !in PatternLabel(ps) && ')' !in PatternLabel(ps)
  {
    PatternLabelNames(ps);
    SplitJoin(PatternsNames(ps), " ");
    JoinAvoids(PatternsNames(ps), " ", '(');
    JoinAvoids(PatternsNames(ps), " ", ')');
  }
}
