/**
 * The documentation page: a small dictionary of documents searched by a
 * case-insensitive query, and sections that expand and collapse.
 */
module DocSearch {
  import opened Text
  import opened Flags

  datatype Doc = Doc(title: string, content: string, tags: seq<string>)

  /** `{ id: key, ...data, excerpt }`. */
  datatype SearchResult = SearchResult(id: string, title: string, content: string, tags: seq<string>, excerpt: string)

  /** `docData`, as its entries in declaration order. */
  const DocData: seq<(string, Doc)> := [
    ("widgets", Doc("Widgets",
      "Widgets are the core building blocks of our system. They provide modular, reusable functionality that can be combined to create complex interfaces.",
      ["core", "components"])),
    ("installation", Doc("Installation",
      "To install our system, use npm install @ourlib/widgets. This will download all necessary dependencies.",
      ["setup", "getting-started"]))
  ]

  /** The lower-cased title, content or one tag contains the lower-cased query; the empty query is in every document. */
  predicate DocMatches(d: Doc, query: string)
    ensures query == [] ==> DocMatches(d, query)
  {
    || ContainsIgnoreCase(d.title, query)
    || ContainsIgnoreCase(d.content, query)
    || exists i :: 0 <= i < |d.tags| && ContainsIgnoreCase(d.tags[i], query)
  }

  /** `content.slice(0, 100) + '...'`: at most the first hundred characters, and the dots even after a short text. */
  function Excerpt(content: string): (r: string)
    ensures |r| == (if |content| < 100 then |content| else 100) + 3
    ensures IsPrefix(r[..|r| - 3], content) && r[|r| - 3..] == "..."
  {
    var n := if |content| < 100 then |content| else 100;
    content[..n] + "..."
  }

  /** The result shown for a matching entry: the key as id, the fields copied, and the excerpt. */
  function ToResult(entry: (string, Doc)): (r: SearchResult)
    ensures r.id == entry.0 && r.title == entry.1.title && r.content == entry.1.content && r.tags == entry.1.tags
    ensures r.excerpt == Excerpt(entry.1.content)
  {
    SearchResult(entry.0, entry.1.title, entry.1.content, entry.1.tags, Excerpt(entry.1.content))
  }

  /** The `filter` and `map` over the entries: one result per matching entry, in entry order. */
  function Results(entries: seq<(string, Doc)>, query: string): (r: seq<SearchResult>)
    ensures |r| <= |entries|
    ensures forall j :: 0 <= j < |entries| && DocMatches(entries[j].1, query) ==> ToResult(entries[j]) in r
  {
    if entries == [] then []
    else
      var rest := Results(entries[1..], query);
      assert forall j :: 1 <= j < |entries| ==> entries[j] == entries[1..][j - 1];
      (if DocMatches(entries[0].1, query) then [ToResult(entries[0])] else []) + rest
  }

  /** Every result comes from a matching entry. */
  lemma {:induction false} ResultsMatch(entries: seq<(string, Doc)>, query: string)
    ensures forall i :: 0 <= i < |Results(entries, query)| ==>
              exists j :: 0 <= j < |entries| && DocMatches(entries[j].1, query) && Results(entries, query)[i] == ToResult(entries[j])
    decreases |entries|
  {
    if entries != [] {
      ResultsMatch(entries[1..], query);
      var r := Results(entries, query);
      var head := if DocMatches(entries[0].1, query) then [ToResult(entries[0])] else [];
      var rest := Results(entries[1..], query);
      assert r == head + rest;
      forall i | 0 <= i < |r|
        ensures exists j :: 0 <= j < |entries| && DocMatches(entries[j].1, query) && r[i] == ToResult(entries[j])
      {
        if i >= |head| {
          assert r[i] == rest[i - |head|];
          var j :| 0 <= j < |entries[1..]| && DocMatches(entries[1..][j].1, query) && rest[i - |head|] == ToResult(entries[1..][j]);
          assert entries[1..][j] == entries[j + 1];
          assert DocMatches(entries[j + 1].1, query) && r[i] == ToResult(entries[j + 1]);
        } else {
          assert DocMatches(entries[0].1, query) && r[i] == ToResult(entries[0]);
        }
      }
    } else {
      assert |Results(entries, query)| == 0;
    }
  }

  /** `searchDocs`: an empty query finds nothing; any other query finds the matching entries. */
  function SearchDocs(docData: seq<(string, Doc)>, query: string): (r: seq<SearchResult>)
    ensures query == [] ==> r == []
    ensures query != [] ==> r == Results(docData, query)
  {
    if query == [] then [] else Results(docData, query)
  }

  /** The results follow the order of the entries: searching two runs of entries searches each. */
  lemma {:induction false} ResultsAppend(a: seq<(string, Doc)>, b: seq<(string, Doc)>, query: string)
    ensures Results(a + b, query) == Results(a, query) + Results(b, query)
    decreases |a|
  {
    if a == [] {
      assert a + b == b;
    } else {
      assert (a + b)[0] == a[0] && (a + b)[1..] == a[1..] + b;
      ResultsAppend(a[1..], b, query);
    }
  }

  /** A query every entry matches returns one result per entry, in order. */
  lemma {:induction false} ResultsAll(entries: seq<(string, Doc)>, query: string)
    requires forall j :: 0 <= j < |entries| ==> DocMatches(entries[j].1, query)
    ensures |Results(entries, query)| == |entries|
    ensures forall j :: 0 <= j < |entries| ==> Results(entries, query)[j] == ToResult(entries[j])
    decreases |entries|
  {
    if entries != [] {
      ResultsAll(entries[1..], query);
    }
  }

  /** `toggleSection`: the section opens or closes; the others stay as they are. */
  function ToggleSection(expandedSections: map<string, bool>, sectionId: string): (r: map<string, bool>)
    ensures IsOn(r, sectionId) <==> !IsOn(expandedSections, sectionId)
    ensures forall k :: k != sectionId ==> (IsOn(r, k) <==> IsOn(expandedSections, k))
  {
    Flip(expandedSections, sectionId)
  }
}
