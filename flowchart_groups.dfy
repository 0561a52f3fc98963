/**
 * Grouping clauses by function name: groups come in the order their names
 * first occur, their names are distinct, and each holds exactly the clauses
 * of its name in the order they were written.
 */
module FlowChartGroups {
  import opened PseudoAst
  import opened FlowChartSpec

  predicate DistinctNames(gs: seq<Group>)
  {
    forall a, b :: 0 <= a < b < |gs| ==> gs[a].name != gs[b].name
  }

  /** A clause whose name already has a group is appended to that group and nowhere else. */
  lemma {:induction false} AddToExisting(gs: seq<Group>, d: FunctionDefinition, k: nat)
    requires DistinctNames(gs)
    requires k < |gs| && gs[k].name == d.name
    ensures AddToGroups(gs, d) == gs[k := Group(d.name, gs[k].clauses + [d])]
  {
    if k > 0 {
      assert gs[0].name != d.name;
      AddToExisting(gs[1..], d, k - 1);
      assert [gs[0]] + gs[1..][k - 1 := Group(d.name, gs[k].clauses + [d])] == gs[k := Group(d.name, gs[k].clauses + [d])];
    }
  }

  /** A clause with a new name opens a group at the end. */
  lemma {:induction false} AddToNew(gs: seq<Group>, d: FunctionDefinition)
    requires forall k :: 0 <= k < |gs| ==> gs[k].name != d.name
    ensures AddToGroups(gs, d) == gs + [Group(d.name, [d])]
  {
    if gs != [] {
      AddToNew(gs[1..], d);
      assert [gs[0]] + (gs[1..] + [Group(d.name, [d])]) == gs + [Group(d.name, [d])];
    }
  }

  lemma GroupByNameSnoc(defs: seq<FunctionDefinition>, i: nat)
    requires i < |defs|
    ensures GroupByName(defs[..i + 1]) == AddToGroups(GroupByName(defs[..i]), defs[i])
  {
    assert defs[..i + 1][..i] == defs[..i];
  }

  /** The clauses of `defs` named `name`, in order. */
  function ClausesNamed(defs: seq<FunctionDefinition>, name: string): (r: seq<FunctionDefinition>)
    ensures |r| <= |defs|
    ensures forall k :: 0 <= k < |r| ==> r[k].name == name && r[k] in defs
  {
    if defs == [] then []
    else ClausesNamed(defs[..|defs| - 1], name) + (if defs[|defs| - 1].name == name then [defs[|defs| - 1]] else [])
  }

  /** The position of the first clause named `name`. */
  function FirstIndex(defs: seq<FunctionDefinition>, name: string): (r: nat)
    ensures r <= |defs|
  {
    if defs == [] then 0
    else if defs[0].name == name then 0
    else 1 + FirstIndex(defs[1..], name)
  }

  /** `FirstIndex` is the first position holding the name, or the length when there is none. */
  lemma {:induction false} FirstIndexSpec(defs: seq<FunctionDefinition>, name: string)
    ensures forall k :: 0 <= k < FirstIndex(defs, name) ==> defs[k].name != name
    ensures FirstIndex(defs, name) < |defs| ==> defs[FirstIndex(defs, name)].name == name
  {
    if defs != [] && defs[0].name != name {
      FirstIndexSpec(defs[1..], name);
      forall k | 0 <= k < FirstIndex(defs, name)
        ensures defs[k].name != name
      {
        if k > 0 { assert defs[k] == defs[1..][k - 1]; }
      }
    }
  }

  /** What the groups are, stated without reference to how they are built. */
  predicate GroupsOf(gs: seq<Group>, defs: seq<FunctionDefinition>)
  {
    DistinctNames(gs) && ClausesMatch(gs, defs) && Covers(gs, defs) && FirstSeenOrder(gs, defs)
  }

  /** Each group holds exactly the clauses of its name, in order, and at least one. */
  predicate ClausesMatch(gs: seq<Group>, defs: seq<FunctionDefinition>)
  {
    forall k :: 0 <= k < |gs| ==> gs[k].clauses == ClausesNamed(defs, gs[k].name) && gs[k].clauses != []
  }

  /** Every clause's name has a group. */
  predicate Covers(gs: seq<Group>, defs: seq<FunctionDefinition>)
  {
    forall k :: 0 <= k < |defs| ==> exists g :: 0 <= g < |gs| && gs[g].name == defs[k].name
  }

  /** Groups are ordered by the first occurrence of their names. */
  predicate FirstSeenOrder(gs: seq<Group>, defs: seq<FunctionDefinition>)
  {
    forall a, b :: 0 <= a < b < |gs| ==> FirstIndex(defs, gs[a].name) < FirstIndex(defs, gs[b].name)
  }

  lemma {:induction false} FirstIndexSnoc(defs: seq<FunctionDefinition>, d: FunctionDefinition, name: string)
    requires FirstIndex(defs, name) < |defs|
    ensures FirstIndex(defs + [d], name) == FirstIndex(defs, name)
  {
    assert (defs + [d])[0] == defs[0];
    if defs[0].name != name {
      assert (defs + [d])[1..] == defs[1..] + [d];
      FirstIndexSnoc(defs[1..], d, name);
    }
  }

  lemma {:induction false} FirstIndexAbsent(defs: seq<FunctionDefinition>, d: FunctionDefinition)
    requires forall k :: 0 <= k < |defs| ==> defs[k].name != d.name
    ensures FirstIndex(defs + [d], d.name) == |defs|
  {
    if defs == [] {
      assert defs + [d] == [d];
    } else {
      assert (defs + [d])[0] == defs[0];
      assert (defs + [d])[1..] == defs[1..] + [d];
      FirstIndexAbsent(defs[1..], d);
    }
  }

  lemma ClausesNamedSnoc(defs: seq<FunctionDefinition>, d: FunctionDefinition, name: string)
    ensures ClausesNamed(defs + [d], name) == ClausesNamed(defs, name) + (if d.name == name then [d] else [])
  {
    assert (defs + [d])[..|defs|] == defs;
  }

  /** Every group's name occurs among the clauses. */
  lemma GroupNameOccurs(gs: seq<Group>, defs: seq<FunctionDefinition>, h: nat)
    requires GroupsOf(gs, defs) && h < |gs|
    ensures FirstIndex(defs, gs[h].name) < |defs|
  {
    var c := gs[h].clauses[0];
    assert c.name == gs[h].name && c in defs;
    var j :| 0 <= j < |defs| && defs[j] == c;
    FirstIndexSpec(defs, gs[h].name);
  }

  /** Appending a clause keeps the first occurrence of every name already grouped. */
  lemma FirstIndexKept(gs: seq<Group>, defs: seq<FunctionDefinition>, d: FunctionDefinition)
    requires GroupsOf(gs, defs)
    ensures forall h :: 0 <= h < |gs| ==>
              FirstIndex(defs + [d], gs[h].name) == FirstIndex(defs, gs[h].name) < |defs|
  {
    forall h | 0 <= h < |gs|
      ensures FirstIndex(defs + [d], gs[h].name) == FirstIndex(defs, gs[h].name) < |defs|
    {
      GroupNameOccurs(gs, defs, h);
      FirstIndexSnoc(defs, d, gs[h].name);
    }
  }

  /** Appending a clause adds it to the clauses of its own name only. */
  lemma ClausesNamedGrown(defs: seq<FunctionDefinition>, d: FunctionDefinition)
    ensures forall name :: ClausesNamed(defs + [d], name) == ClausesNamed(defs, name) + (if d.name == name then [d] else [])
  {
    forall name
      ensures ClausesNamed(defs + [d], name) == ClausesNamed(defs, name) + (if d.name == name then [d] else [])
    {
      ClausesNamedSnoc(defs, d, name);
    }
  }

  lemma ClausesMatchStep(gs: seq<Group>, defs: seq<FunctionDefinition>, d: FunctionDefinition, r: seq<Group>,
                         grown: seq<FunctionDefinition>)
    requires ClausesMatch(gs, defs)
    requires forall name :: ClausesNamed(grown, name) == ClausesNamed(defs, name) + (if d.name == name then [d] else [])
    requires |r| >= |gs| && forall h :: 0 <= h < |gs| ==> r[h].name == gs[h].name
    requires forall h :: 0 <= h < |gs| ==>
               r[h].clauses == gs[h].clauses + (if gs[h].name == d.name then [d] else [])
    requires |r| == |gs| + 1 ==> r[|gs|] == Group(d.name, [d]) && ClausesNamed(defs, d.name) == []
    requires |r| <= |gs| + 1
    ensures ClausesMatch(r, grown)
  {
    forall h | 0 <= h < |r|
      ensures r[h].clauses == ClausesNamed(grown, r[h].name) && r[h].clauses != []
    {
      if h < |gs| {
        assert r[h].name == gs[h].name;
        assert gs[h].clauses == ClausesNamed(defs, gs[h].name) && gs[h].clauses != [];
      } else {
        assert r[h] == Group(d.name, [d]);
      }
    }
  }

  lemma CoversStep(gs: seq<Group>, defs: seq<FunctionDefinition>, d: FunctionDefinition, r: seq<Group>, k: nat)
    requires Covers(gs, defs)
    requires |r| >= |gs| && forall h :: 0 <= h < |gs| ==> r[h].name == gs[h].name
    requires k < |r| && r[k].name == d.name
    ensures Covers(r, defs + [d])
  {
    forall j | 0 <= j < |defs + [d]|
      ensures exists g :: 0 <= g < |r| && r[g].name == (defs + [d])[j].name
    {
      if j < |defs| {
        var g :| 0 <= g < |gs| && gs[g].name == defs[j].name;
        assert r[g].name == (defs + [d])[j].name;
      } else {
        assert r[k].name == (defs + [d])[j].name;
      }
    }
  }

  /** Renaming nothing keeps the names distinct and their order. */
  lemma SameNamesKept(gs: seq<Group>, defs: seq<FunctionDefinition>, r: seq<Group>, grown: seq<FunctionDefinition>)
    requires DistinctNames(gs) && FirstSeenOrder(gs, defs)
    requires |r| == |gs| && forall h :: 0 <= h < |gs| ==> r[h].name == gs[h].name
    requires forall h :: 0 <= h < |gs| ==> FirstIndex(grown, gs[h].name) == FirstIndex(defs, gs[h].name)
    ensures DistinctNames(r) && FirstSeenOrder(r, grown)
  {
  }

  lemma GroupedStepExisting(gs: seq<Group>, defs: seq<FunctionDefinition>, d: FunctionDefinition, k: nat)
    requires GroupsOf(gs, defs)
    requires k < |gs| && gs[k].name == d.name
    ensures GroupsOf(AddToGroups(gs, d), defs + [d])
  {
    AddToExisting(gs, d, k);
    var r := AddToGroups(gs, d);
    assert forall h :: 0 <= h < |r| ==> r[h].name == gs[h].name;
    ClausesNamedGrown(defs, d);
    ClausesMatchStep(gs, defs, d, r, defs + [d]);
    CoversStep(gs, defs, d, r, k);
    FirstIndexKept(gs, defs, d);
    SameNamesKept(gs, defs, r, defs + [d]);
  }

  /** A name without a group names no clause. */
  lemma NewNameAbsent(gs: seq<Group>, defs: seq<FunctionDefinition>, d: FunctionDefinition)
    requires Covers(gs, defs)
    requires forall k :: 0 <= k < |gs| ==> gs[k].name != d.name
    ensures forall j :: 0 <= j < |defs| ==> defs[j].name != d.name
    ensures ClausesNamed(defs, d.name) == []
  {
    forall j | 0 <= j < |defs|
      ensures defs[j].name != d.name
    {
      var h :| 0 <= h < |gs| && gs[h].name == defs[j].name;
    }
  }

  lemma DistinctStepNew(gs: seq<Group>, d: FunctionDefinition)
    requires DistinctNames(gs)
    requires forall k :: 0 <= k < |gs| ==> gs[k].name != d.name
    ensures DistinctNames(gs + [Group(d.name, [d])])
  {
    var r := gs + [Group(d.name, [d])];
    forall a, b | 0 <= a < b < |r|
      ensures r[a].name != r[b].name
    {
      assert r[a] == gs[a];
      if b < |gs| {
        assert r[b] == gs[b];
      } else {
        assert r[b] == Group(d.name, [d]);
      }
    }
  }

  lemma OrderStepNew(gs: seq<Group>, defs: seq<FunctionDefinition>, d: FunctionDefinition, grown: seq<FunctionDefinition>)
    requires FirstSeenOrder(gs, defs)
    requires forall h :: 0 <= h < |gs| ==>
               FirstIndex(grown, gs[h].name) == FirstIndex(defs, gs[h].name) < |defs|
    requires FirstIndex(grown, d.name) == |defs|
    ensures FirstSeenOrder(gs + [Group(d.name, [d])], grown)
  {
    var r := gs + [Group(d.name, [d])];
    forall a, b | 0 <= a < b < |r|
      ensures FirstIndex(grown, r[a].name) < FirstIndex(grown, r[b].name)
    {
      assert r[a] == gs[a];
      if b < |gs| {
        assert r[b] == gs[b];
      } else {
        assert r[b] == Group(d.name, [d]);
      }
    }
  }

  lemma GroupedStepNew(gs: seq<Group>, defs: seq<FunctionDefinition>, d: FunctionDefinition)
    requires GroupsOf(gs, defs)
    requires forall k :: 0 <= k < |gs| ==> gs[k].name != d.name
    ensures GroupsOf(AddToGroups(gs, d), defs + [d])
  {
    AddToNew(gs, d);
    var r := AddToGroups(gs, d);
    NewNameAbsent(gs, defs, d);
    ClausesNamedGrown(defs, d);
    ClausesMatchStep(gs, defs, d, r, defs + [d]);
    CoversStep(gs, defs, d, r, |gs|);
    FirstIndexKept(gs, defs, d);
    FirstIndexAbsent(defs, d);
    DistinctStepNew(gs, d);
    OrderStepNew(gs, defs, d, defs + [d]);
  }

  /**
   * `GroupByName` meets that statement: distinct names in first-occurrence
   * order, every clause in the group of its name, each group exactly the
   * clauses of its name in written order.
   */
  lemma {:induction false} GroupByNameSpec(defs: seq<FunctionDefinition>)
    ensures GroupsOf(GroupByName(defs), defs)
  {
    if defs != [] {
      var n := |defs| - 1;
      var init, d := defs[..n], defs[n];
      assert init + [d] == defs;
      GroupByNameSpec(init);
      var gs := GroupByName(init);
      if k :| 0 <= k < |gs| && gs[k].name == d.name {
        GroupedStepExisting(gs, init, d, k);
      } else {
        GroupedStepNew(gs, init, d);
      }
    }
  }
}
