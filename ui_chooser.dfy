/**
 * The UI component guide: a catalog of categories, each holding components
 * with "when to use" and "when to avoid" advice, and a search that keeps the
 * components whose name or advice mentions the term. A JavaScript object is
 * modelled as the list of its entries in insertion order, which is the order
 * `Object.entries` walks and the page shows.
 */
module UiChooser {
  import opened Text
  import opened Seqs

  datatype Details = Details(use: seq<string>, avoid: seq<string>)

  type Component = (string, Details)

  type Category = (string, seq<Component>)

  /** `items.some(item => item.toLowerCase().includes(term.toLowerCase()))`. */
  function SomeContains(items: seq<string>, term: string): (b: bool)
    ensures b <==> exists i :: 0 <= i < |items| && ContainsIgnoreCase(items[i], term)
  {
    if items == [] then false
    else ContainsIgnoreCase(items[0], term) || SomeContains(items[1..], term)
  }

  /** `matchesSearch`: the name, a use item or an avoid item contains the term, ignoring case; the empty term matches everything. */
  predicate Matches(c: Component, term: string)
    ensures term == [] ==> Matches(c, term)
  {
    ContainsIgnoreCase(c.0, term) || SomeContains(c.1.use, term) || SomeContains(c.1.avoid, term)
  }

  function MatchesTerm(term: string): Component -> bool
  {
    (c: Component) => Matches(c, term)
  }

  /** The components of one category that the search keeps, in their order. */
  function KeptComponents(components: seq<Component>, term: string): (r: seq<Component>)
    ensures forall i :: 0 <= i < |r| ==> r[i] in components && Matches(r[i], term)
    ensures forall i :: 0 <= i < |components| && Matches(components[i], term) ==> components[i] in r
  {
    Filter(components, MatchesTerm(term))
  }

  /** What one category contributes: itself with its kept components, or nothing when none is kept. */
  function CategoryResult(category: Category, term: string): seq<Category>
  {
    var kept := KeptComponents(category.1, term);
    if |kept| > 0 then [(category.0, kept)] else []
  }

  /** The categories that keep a component, each with its kept components, in catalog order. */
  function FilteredCategories(catalog: seq<Category>, term: string): (r: seq<Category>)
    ensures |r| <= |catalog|
  {
    if catalog == [] then [] else CategoryResult(catalog[0], term) + FilteredCategories(catalog[1..], term)
  }

  /** `filterComponents`: an empty term shows the whole catalog. */
  function FilterCatalog(catalog: seq<Category>, searchTerm: string): (r: seq<Category>)
    ensures searchTerm == [] ==> r == catalog
  {
    if searchTerm == [] then catalog else FilteredCategories(catalog, searchTerm)
  }

  /** The categories are filtered one after the other. */
  lemma {:induction false} FilteredCategoriesAppend(a: seq<Category>, b: seq<Category>, term: string)
    ensures FilteredCategories(a + b, term) == FilteredCategories(a, term) + FilteredCategories(b, term)
    decreases |a|
  {
    if a == [] {
      assert a + b == b;
    } else {
      assert (a + b)[0] == a[0] && (a + b)[1..] == a[1..] + b;
      FilteredCategoriesAppend(a[1..], b, term);
    }
  }

  /**
   * Every category shown comes from the catalog under the same name, holds
   * at least one component, and holds exactly the components of that
   * catalog category that match.
   */
  lemma {:induction false} FilteredFromCatalog(catalog: seq<Category>, term: string)
    ensures forall i :: 0 <= i < |FilteredCategories(catalog, term)| ==>
              var c := FilteredCategories(catalog, term)[i];
              |c.1| > 0 && exists j :: 0 <= j < |catalog| && c.0 == catalog[j].0 && c.1 == KeptComponents(catalog[j].1, term)
    decreases |catalog|
  {
    if catalog != [] {
      FilteredFromCatalog(catalog[1..], term);
      var r := FilteredCategories(catalog, term);
      var head := CategoryResult(catalog[0], term);
      forall i | 0 <= i < |r|
        ensures |r[i].1| > 0 && exists j :: 0 <= j < |catalog| && r[i].0 == catalog[j].0 && r[i].1 == KeptComponents(catalog[j].1, term)
      {
        if i < |head| {
          assert r[i] == (catalog[0].0, KeptComponents(catalog[0].1, term));
        } else {
          var j :| 0 <= j < |catalog[1..]| && r[i].0 == catalog[1..][j].0 && r[i].1 == KeptComponents(catalog[1..][j].1, term);
          assert catalog[1..][j] == catalog[j + 1];
        }
      }
    }
  }

  /** Every catalog category with a matching component is shown, with exactly its matching components. */
  lemma {:induction false} CatalogToFiltered(catalog: seq<Category>, term: string, j: nat)
    requires j < |catalog| && |KeptComponents(catalog[j].1, term)| > 0
    ensures (catalog[j].0, KeptComponents(catalog[j].1, term)) in FilteredCategories(catalog, term)
    decreases j
  {
    if j > 0 {
      assert catalog[1..][j - 1] == catalog[j];
      CatalogToFiltered(catalog[1..], term, j - 1);
    }
  }

  /** A matching component is shown under its category's name. */
  lemma ShownIfMatches(catalog: seq<Category>, term: string, j: nat, k: nat)
    requires term != [] && j < |catalog| && k < |catalog[j].1| && Matches(catalog[j].1[k], term)
    ensures exists i :: 0 <= i < |FilterCatalog(catalog, term)|
              && FilterCatalog(catalog, term)[i].0 == catalog[j].0 && catalog[j].1[k] in FilterCatalog(catalog, term)[i].1
  {
    var r := FilterCatalog(catalog, term);
    var kept := KeptComponents(catalog[j].1, term);
    assert catalog[j].1[k] in kept;
    CatalogToFiltered(catalog, term, j);
    var i :| 0 <= i < |r| && r[i] == (catalog[j].0, kept);
    assert r[i].0 == catalog[j].0 && catalog[j].1[k] in r[i].1;
  }

  /** A component shown in a category of the result matches the term. */
  lemma MatchesIfShown(catalog: seq<Category>, term: string, i: nat, c: Component)
    requires term != [] && i < |FilterCatalog(catalog, term)| && c in FilterCatalog(catalog, term)[i].1
    ensures Matches(c, term)
  {
    var r := FilterCatalog(catalog, term);
    FilteredFromCatalog(catalog, term);
    var j' :| 0 <= j' < |catalog| && r[i].0 == catalog[j'].0 && r[i].1 == KeptComponents(catalog[j'].1, term);
    var n :| 0 <= n < |r[i].1| && r[i].1[n] == c;
  }

  /** A component is shown, under its category's name, exactly when it matches the term. */
  lemma ShownIffMatches(catalog: seq<Category>, term: string, j: nat, k: nat)
    requires term != [] && j < |catalog| && k < |catalog[j].1|
    ensures Matches(catalog[j].1[k], term) <==>
              exists i :: 0 <= i < |FilterCatalog(catalog, term)|
                && FilterCatalog(catalog, term)[i].0 == catalog[j].0 && catalog[j].1[k] in FilterCatalog(catalog, term)[i].1
  {
    var r := FilterCatalog(catalog, term);
    if Matches(catalog[j].1[k], term) {
      ShownIfMatches(catalog, term, j, k);
    }
    if exists i :: 0 <= i < |r| && r[i].0 == catalog[j].0 && catalog[j].1[k] in r[i].1 {
      var i :| 0 <= i < |r| && r[i].0 == catalog[j].0 && catalog[j].1[k] in r[i].1;
      MatchesIfShown(catalog, term, i, catalog[j].1[k]);
    }
  }

  lemma KeepStep(components: seq<Component>, j: nat, term: string)
    requires j < |components|
    ensures Filter(components[..j + 1], MatchesTerm(term))
         == Filter(components[..j], MatchesTerm(term)) + (if Matches(components[j], term) then [components[j]] else [])
  {
    assert components[..j + 1] == components[..j] + [components[j]];
    FilterAppend(components[..j], [components[j]], MatchesTerm(term));
    assert Filter([components[j]], MatchesTerm(term)) == if Matches(components[j], term) then [components[j]] else [];
  }

  lemma CategoryStep(catalog: seq<Category>, i: nat, term: string)
    requires i < |catalog|
    ensures FilteredCategories(catalog[..i + 1], term)
         == FilteredCategories(catalog[..i], term) + CategoryResult(catalog[i], term)
  {
    assert catalog[..i + 1] == catalog[..i] + [catalog[i]];
    FilteredCategoriesAppend(catalog[..i], [catalog[i]], term);
    assert FilteredCategories([catalog[i]], term) == CategoryResult(catalog[i], term) + FilteredCategories([], term);
  }

  /**
   * `filterComponents` as the page runs it: nested loops over the entries,
   * collecting the matching components of a category and adding the
   * category only when it kept one.
   */
  method FilterComponents(components: seq<Category>, searchTerm: string) returns (filtered: seq<Category>)
    ensures filtered == FilterCatalog(components, searchTerm)
  {
    if searchTerm == [] {
      return components;
    }
    filtered := [];
    var i := 0;
    while i < |components|
      invariant 0 <= i <= |components|
      invariant filtered == FilteredCategories(components[..i], searchTerm)
    {
      var (category, categoryComponents) := components[i];
      var filteredCategory := [];
      var j := 0;
      while j < |categoryComponents|
        invariant 0 <= j <= |categoryComponents|
        invariant filteredCategory == Filter(categoryComponents[..j], MatchesTerm(searchTerm))
      {
        var (component, details) := categoryComponents[j];
        var matchesSearch :=
          ContainsIgnoreCase(component, searchTerm)
          || SomeContains(details.use, searchTerm)
          || SomeContains(details.avoid, searchTerm);
        if matchesSearch {
          filteredCategory := filteredCategory + [(component, details)];
        }
        KeepStep(categoryComponents, j, searchTerm);
        j := j + 1;
      }
      assert categoryComponents[..j] == categoryComponents;
      if |filteredCategory| > 0 {
        filtered := filtered + [(category, filteredCategory)];
      }
      CategoryStep(components, i, searchTerm);
      i := i + 1;
    }
    assert components[..i] == components;
  }
}
