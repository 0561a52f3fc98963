/**
 * The category editor: `addCategory` reads a comma-separated object list and a
 * comma-separated list of morphisms `name: From->To`; `addFunctor` reads two
 * comma-separated lists of `key->value` mappings into dictionaries.
 */
module CategoryTheory {
  import opened Wrappers
  import opened Text
  import opened Seqs

  /** `to` is `undefined` when the text after `:` has no `->`. */
  datatype Morphism = Morphism(id: string, from: string, to: Option<string>, name: string)

  datatype Category = Category(id: string, name: string, objects: seq<string>, morphisms: seq<Morphism>)

  datatype Functor = Functor(id: string, name: string, source: string, target: string,
                             objectMap: map<string, string>, morphismMap: map<string, string>)

  /** The text fields of the two forms. */
  datatype CategoryForm = CategoryForm(name: string, objects: string, morphisms: string)

  datatype FunctorForm = FunctorForm(name: string, source: string, target: string, objectMap: string, morphismMap: string)

  datatype EditMode = NotEditing | EditingCategory | EditingFunctor

  datatype Page = Page(categories: seq<Category>, functors: seq<Functor>,
                       newCategory: CategoryForm, newFunctor: FunctorForm, editMode: EditMode)

  const EmptyCategoryForm := CategoryForm([], [], [])
  const EmptyFunctorForm := FunctorForm([], [], [], [], [])

  /**
   * One chunk of the morphism list: kept only when splitting it on `:` gives
   * exactly two parts; id and name are the part before `:`, trimmed, and the
   * two ends the first two `->`-separated pieces after it.
   */
  function ParseMorphism(chunk: string): (r: Option<Morphism>)
    ensures r.Some? <==> |Split(Trim(chunk), ":")| == 2
    ensures r.Some? ==> r.value.id == r.value.name == Trim(Split(Trim(chunk), ":")[0])
  {
    var parts := Split(Trim(chunk), ":");
    if |parts| == 2 then
      var ends := TrimAll(Split(parts[1], "->"));
      Some(Morphism(Trim(parts[0]), ends[0], if |ends| >= 2 then Some(ends[1]) else None, Trim(parts[0])))
    else None
  }

  /** `chunks.map(parse).filter(Boolean)`. */
  function MorphismsOf(chunks: seq<string>): (r: seq<Morphism>)
    ensures |r| <= |chunks|
  {
    FilterMap(ParseMorphism, chunks)
  }

  /** A morphism whose id is its name. */
  predicate NamedById(m: Morphism)
  {
    m.id == m.name
  }

  /** The morphism list of the form: at most one morphism per comma-separated chunk, each named by its id. */
  function ParseMorphisms(text: string): (r: seq<Morphism>)
    ensures |r| <= |Split(text, ",")|
    ensures forall i :: 0 <= i < |r| ==> NamedById(r[i])
  {
    FilterMapKeeps(ParseMorphism, Split(text, ","), NamedById);
    MorphismsOf(Split(text, ","))
  }

  /** A word fit to stand between the separators of the morphism syntax. */
  predicate IsPlainWord(s: string)
  {
    s != [] && IsTrimmed(s) && ',' !in s && ':' !in s && '-' !in s
  }

  /** The text `name: from->to` of a morphism. */
  function MorphismText(name: string, from: string, to: string): string
  {
    name + ":" + (from + "->" + to)
  }

  /** How `ParseMorphism` reads a chunk with one `:`. */
  lemma ParseMorphismOf(chunk: string, name: string, arrow: string, ends: seq<string>)
    requires Split(Trim(chunk), ":") == [name, arrow]
    requires TrimAll(Split(arrow, "->")) == ends
    ensures ParseMorphism(chunk).Some?
    ensures ParseMorphism(chunk).value.id == ParseMorphism(chunk).value.name == Trim(name)
    ensures ParseMorphism(chunk).value.from == ends[0]
    ensures ParseMorphism(chunk).value.to == if |ends| >= 2 then Some(ends[1]) else None
  {
  }

  lemma PlainTrimmed(s: string)
    requires IsPlainWord(s)
    ensures Trim(s) == s
  {
    TrimTrimmed(s);
  }

  /** `a` then `b`, both plain words, with a separator between. */
  lemma JoinedTrimmed(a: string, sep: string, b: string)
    requires IsPlainWord(a) && IsPlainWord(b)
    ensures Trim(a + sep + b) == a + sep + b
  {
    var t := a + sep + b;
    assert t[0] == a[0];
    assert t[|t| - 1] == b[|b| - 1];
    TrimTrimmed(t);
  }

  /** The text after `:` of `name: from->to`. */
  lemma ArrowPlain(from: string, to: string)
    requires IsPlainWord(from) && IsPlainWord(to)
    ensures var arrow := from + "->" + to;
            ':' !in arrow && arrow != [] && IsTrimmed(arrow) && arrow[|arrow| - 1] == to[|to| - 1]
  {
    var arrow := from + "->" + to;
    assert arrow[0] == from[0];
    assert arrow[|arrow| - 1] == to[|to| - 1];
    forall i | 0 <= i < |arrow|
      ensures arrow[i] != ':'
    {
      if i < |from| {
        assert arrow[i] == from[i];
      } else if i >= |from| + 2 {
        assert arrow[i] == to[i - |from| - 2];
      }
    }
  }

  /** The chunk splits on `:` into the name and the arrow. */
  lemma ChunkParts(name: string, arrow: string)
    requires IsPlainWord(name) && ':' !in arrow && arrow != [] && IsTrimmed(arrow)
    ensures Split(Trim(name + ":" + arrow), ":") == [name, arrow]
  {
    var t := name + ":" + arrow;
    assert t[0] == name[0];
    assert t[|t| - 1] == arrow[|arrow| - 1];
    TrimTrimmed(t);
    SplitTwo(name, arrow, ":");
  }

  lemma TrimAllPair(a: string, b: string)
    requires IsTrimmed(a) && IsTrimmed(b)
    ensures TrimAll([a, b]) == [a, b]
  {
    var pair := [a, b];
    forall k | 0 <= k < |pair|
      ensures IsTrimmed(pair[k])
    {
    }
    TrimAllTrimmed(pair);
  }

  /** The arrow splits on `->` into its two trimmed ends. */
  lemma ArrowEnds(from: string, to: string)
    requires IsPlainWord(from) && IsPlainWord(to)
    ensures TrimAll(Split(from + "->" + to, "->")) == [from, to]
  {
    SplitTwo(from, to, "->");
    TrimAllPair(from, to);
  }

  /** `name: from->to` reads back as that morphism, with id `name`. */
  lemma MorphismRoundTrip(name: string, from: string, to: string)
    requires IsPlainWord(name) && IsPlainWord(from) && IsPlainWord(to)
    ensures ParseMorphism(MorphismText(name, from, to)) == Some(Morphism(name, from, Some(to), name))
  {
    ArrowPlain(from, to);
    ChunkParts(name, from + "->" + to);
    ArrowEnds(from, to);
    PlainTrimmed(name);
    ParseMorphismOf(MorphismText(name, from, to), name, from + "->" + to, [from, to]);
  }

  /** Without `->` the morphism has no target: `to` is left undefined. */
  lemma MorphismWithoutArrow(name: string, from: string)
    requires IsPlainWord(name) && IsPlainWord(from)
    ensures ParseMorphism(name + ":" + from) == Some(Morphism(name, from, None, name))
  {
    ChunkParts(name, from);
    SplitOne(from, "->");
    PlainTrimmed(from);
    PlainTrimmed(name);
    assert TrimAll([from]) == [from];
    ParseMorphismOf(name + ":" + from, name, from, [from]);
  }

  /** A list of morphisms written out as `name: from->to` chunks reads back as the same list. */
  lemma MorphismsRoundTrip(names: seq<string>, froms: seq<string>, tos: seq<string>)
    requires |names| == |froms| == |tos| > 0
    requires forall k :: 0 <= k < |names| ==> IsPlainWord(names[k]) && IsPlainWord(froms[k]) && IsPlainWord(tos[k])
    ensures ParseMorphisms(Join(MorphismTexts(names, froms, tos), ","))
            == seq(|names|, k requires 0 <= k < |names| => Morphism(names[k], froms[k], Some(tos[k]), names[k]))
  {
    var texts := MorphismTexts(names, froms, tos);
    var ms := seq(|names|, k requires 0 <= k < |names| => Morphism(names[k], froms[k], Some(tos[k]), names[k]));
    forall k | 0 <= k < |texts|
      ensures ',' !in texts[k] && ParseMorphism(texts[k]) == Some(ms[k])
    {
      NoCommaInText(names[k], froms[k], tos[k]);
      MorphismRoundTrip(names[k], froms[k], tos[k]);
    }
    SplitJoin(texts, ",");
    MorphismsOfParsed(texts, ms);
  }

  lemma NoCommaInText(name: string, from: string, to: string)
    requires IsPlainWord(name) && IsPlainWord(from) && IsPlainWord(to)
    ensures ',' !in MorphismText(name, from, to)
  {
    var t := MorphismText(name, from, to);
    forall i | 0 <= i < |t|
      ensures t[i] != ','
    {
      if i < |name| {
        assert t[i] == name[i];
      } else if |name| + 1 <= i < |name| + 1 + |from| {
        assert t[i] == from[i - |name| - 1];
      } else if i >= |name| + 3 + |from| {
        assert t[i] == to[i - |name| - 3 - |from|];
      }
    }
  }

  /** The chunks `name: from->to` of a list of morphisms. */
  function MorphismTexts(names: seq<string>, froms: seq<string>, tos: seq<string>): (r: seq<string>)
    requires |names| == |froms| == |tos|
    ensures |r| == |names|
    ensures forall k :: 0 <= k < |r| ==> r[k] == MorphismText(names[k], froms[k], tos[k])
  {
    if names == [] then [] else [MorphismText(names[0], froms[0], tos[0])] + MorphismTexts(names[1..], froms[1..], tos[1..])
  }

  /** When every chunk parses, all of them are kept, in order. */
  lemma MorphismsOfParsed(chunks: seq<string>, ms: seq<Morphism>)
    requires |chunks| == |ms|
    requires forall k :: 0 <= k < |chunks| ==> ParseMorphism(chunks[k]) == Some(ms[k])
    ensures MorphismsOf(chunks) == ms
  {
    FilterMapAllPresent(ParseMorphism, chunks, ms);
  }

  /**
   * `addCategory`: nothing happens without a name; otherwise the new category,
   * with id the decimal clock reading `now`, goes at the end, the form is
   * cleared and editing ends.
   */
  function AddCategory(p: Page, now: nat): (r: Page)
    ensures p.newCategory.name == [] ==> r == p
    ensures p.newCategory.name != [] ==>
              && |r.categories| == |p.categories| + 1
              && r.categories[..|p.categories|] == p.categories
              && r.categories[|p.categories|].name == p.newCategory.name
              && r.categories[|p.categories|].objects == ItemList(p.newCategory.objects, ",")
              && r.categories[|p.categories|].morphisms == ParseMorphisms(p.newCategory.morphisms)
              && r.functors == p.functors && r.newFunctor == p.newFunctor
              && r.newCategory == EmptyCategoryForm && r.editMode == NotEditing
  {
    if p.newCategory.name == [] then p
    else
      var c := Category(NatToString(now), p.newCategory.name, ItemList(p.newCategory.objects, ","),
                        ParseMorphisms(p.newCategory.morphisms));
      p.(categories := p.categories + [c], newCategory := EmptyCategoryForm, editMode := NotEditing)
  }

  /** A side of a kept mapping: non-empty and trimmed. */
  predicate CleanSide(s: string)
  {
    s != [] && IsTrimmed(s)
  }

  /**
   * One `key->value` mapping: both trimmed sides must be non-empty; pieces
   * after a second `->` are ignored. A kept mapping has clean sides.
   */
  function MappingPair(piece: string): (r: Option<(string, string)>)
    ensures r.Some? ==> CleanSide(r.value.0) && CleanSide(r.value.1)
  {
    var pieces := Split(piece, "->");
    var sides := TrimAll(pieces);
    if |sides| >= 2 && sides[0] != [] && sides[1] != [] then
      TrimIsTrimmed(pieces[0]);
      TrimIsTrimmed(pieces[1]);
      Some((sides[0], sides[1]))
    else None
  }

  /** `key->value` reads back as that pair. */
  lemma MappingPairRoundTrip(key: string, value: string)
    requires IsPlainWord(key) && IsPlainWord(value)
    ensures MappingPair(key + "->" + value) == Some((key, value))
  {
    assert Join([key, value], "->") == key + "->" + value;
    SplitJoin([key, value], "->");
    TrimTrimmed(key);
    TrimTrimmed(value);
  }

  /** The pair each piece yields, if any. */
  function Pairs(pieces: seq<string>): (r: seq<Option<(string, string)>>)
    ensures |r| == |pieces|
    ensures forall i :: 0 <= i < |r| ==> r[i] == MappingPair(pieces[i])
  {
    MapAll(MappingPair, pieces)
  }

  /** The dictionary the `forEach` loop leaves after the given pairs, written from left to right. */
  function Collect(pairs: seq<Option<(string, string)>>): map<string, string>
  {
    if pairs == [] then map[]
    else
      var m := Collect(pairs[..|pairs| - 1]);
      var pair := pairs[|pairs| - 1];
      if pair.Some? then m[pair.value.0 := pair.value.1] else m
  }

  /** Every key and value written from clean pairs is clean. */
  lemma {:induction false} CollectClean(pairs: seq<Option<(string, string)>>)
    requires forall i :: 0 <= i < |pairs| && pairs[i].Some? ==> CleanSide(pairs[i].value.0) && CleanSide(pairs[i].value.1)
    ensures forall key :: key in Collect(pairs) ==> CleanSide(key) && CleanSide(Collect(pairs)[key])
    decreases |pairs|
  {
    if pairs != [] {
      var front := pairs[..|pairs| - 1];
      assert forall i :: 0 <= i < |front| ==> front[i] == pairs[i];
      CollectClean(front);
    }
  }

  /** The dictionary a mapping field defines: every key and every value is non-empty and trimmed. */
  function Mapping(pieces: seq<string>): (r: map<string, string>)
    ensures forall key :: key in r ==> CleanSide(key) && CleanSide(r[key])
  {
    CollectClean(Pairs(pieces));
    Collect(Pairs(pieces))
  }

  /** Pair `i` maps `key`. */
  predicate Maps(pairs: seq<Option<(string, string)>>, i: int, key: string)
  {
    0 <= i < |pairs| && pairs[i].Some? && pairs[i].value.0 == key
  }

  /** A key is in the dictionary exactly when some pair maps it. */
  lemma {:induction false} CollectKeys(pairs: seq<Option<(string, string)>>, key: string)
    ensures key in Collect(pairs) <==> exists i :: Maps(pairs, i, key)
    decreases |pairs|
  {
    if pairs != [] {
      var front := pairs[..|pairs| - 1];
      var last := pairs[|pairs| - 1];
      CollectKeys(front, key);
      if key in Collect(pairs) {
        if key in Collect(front) {
          var i :| Maps(front, i, key);
          assert Maps(pairs, i, key);
        } else {
          assert Maps(pairs, |pairs| - 1, key);
        }
      }
      if exists i :: Maps(pairs, i, key) {
        var i :| Maps(pairs, i, key);
        if i < |front| {
          assert Maps(front, i, key);
        } else {
          assert last.Some? && last.value.0 == key;
        }
      }
    }
  }

  /** The last pair that maps a key decides its value: a later pair overwrites an earlier one. */
  lemma {:induction false} CollectLastWins(pairs: seq<Option<(string, string)>>, i: nat, key: string)
    requires Maps(pairs, i, key)
    requires forall j :: i < j < |pairs| ==> !Maps(pairs, j, key)
    ensures key in Collect(pairs) && Collect(pairs)[key] == pairs[i].value.1
    decreases |pairs|
  {
    var front := pairs[..|pairs| - 1];
    if i < |front| {
      assert Maps(front, i, key);
      assert !Maps(pairs, |pairs| - 1, key);
      forall j | i < j < |front|
        ensures !Maps(front, j, key)
      {
        assert !Maps(pairs, j, key);
      }
      CollectLastWins(front, i, key);
    }
  }

  /** One more piece: its pair, if any, is written over the dictionary so far. */
  lemma CollectStep(pairs: seq<Option<(string, string)>>, i: nat)
    requires i < |pairs|
    ensures Collect(pairs[..i + 1]) == if pairs[i].Some? then Collect(pairs[..i])[pairs[i].value.0 := pairs[i].value.1]
                                       else Collect(pairs[..i])
  {
    assert pairs[..i + 1][..i] == pairs[..i];
  }

  /** The prefix of every pair is all of them. */
  lemma CollectAll(pairs: seq<Option<(string, string)>>)
    ensures Collect(pairs[..|pairs|]) == Collect(pairs)
  {
    assert pairs[..|pairs|] == pairs;
  }

  /**
   * The `forEach` loop of `addFunctor`: split on `,`, and write each kept
   * pair into the dictionary, later pairs over earlier ones.
   */
  method BuildMapping(text: string) returns (m: map<string, string>)
    ensures m == Mapping(Split(text, ","))
  {
    var pieces := Split(text, ",");
    m := map[];
    for i := 0 to |pieces|
      invariant m == Collect(Pairs(pieces)[..i])
    {
      CollectStep(Pairs(pieces), i);
      var pair := MappingPair(pieces[i]);
      if pair.Some? {
        m := m[pair.value.0 := pair.value.1];
      }
    }
    CollectAll(Pairs(pieces));
  }

  /**
   * `addFunctor`: nothing happens unless name, source and target are all
   * non-empty; otherwise the new functor, with id the decimal clock reading
   * `now` and its two dictionaries read from the form, goes at the end.
   */
  function AddFunctor(p: Page, now: nat): (r: Page)
    ensures (p.newFunctor.name == [] || p.newFunctor.source == [] || p.newFunctor.target == []) ==> r == p
    ensures (p.newFunctor.name != [] && p.newFunctor.source != [] && p.newFunctor.target != []) ==>
              && |r.functors| == |p.functors| + 1
              && r.functors[..|p.functors|] == p.functors
              && r.functors[|p.functors|] == Functor(NatToString(now), p.newFunctor.name, p.newFunctor.source,
                                                    p.newFunctor.target, Mapping(Split(p.newFunctor.objectMap, ",")),
                                                    Mapping(Split(p.newFunctor.morphismMap, ",")))
              && r.categories == p.categories && r.newCategory == p.newCategory
              && r.newFunctor == EmptyFunctorForm && r.editMode == NotEditing
  {
    if p.newFunctor.name == [] || p.newFunctor.source == [] || p.newFunctor.target == [] then p
    else
      var f := Functor(NatToString(now), p.newFunctor.name, p.newFunctor.source, p.newFunctor.target,
                       Mapping(Split(p.newFunctor.objectMap, ",")), Mapping(Split(p.newFunctor.morphismMap, ",")));
      p.(functors := p.functors + [f], newFunctor := EmptyFunctorForm, editMode := NotEditing)
  }
}
