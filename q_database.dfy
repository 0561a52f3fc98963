/**
 * The Q-database page: a list of entries with a title, a description and
 * tags, a case-insensitive search over them, and create, update and delete
 * handlers that rebuild the list. The database writes and the clock are
 * parameters: `ok` says whether the write succeeded (on failure the handler
 * only logs and nothing changes), `newId` and `now` are what the database
 * and the clock return.
 */
module QDatabase {
  import opened Wrappers
  import opened Text
  import opened Seqs

  datatype Entry = Entry(id: string, title: string, description: string, tags: seq<string>,
                         createdAt: int, updatedAt: int)

  /** The text fields of the create and edit dialogs; tags are one comma-separated string. */
  datatype EntryForm = EntryForm(title: string, description: string, tags: string)

  datatype Page = Page(entries: seq<Entry>, editingEntry: Option<Entry>, form: EntryForm,
                       createOpen: bool, editOpen: bool)

  const EmptyForm := EntryForm([], [], [])

  /** The search term occurs, ignoring case, in the title, the description or one of the tags; the empty term is in every entry. */
  predicate Matches(e: Entry, term: string)
    ensures term == [] ==> Matches(e, term)
  {
    || ContainsIgnoreCase(e.title, term)
    || ContainsIgnoreCase(e.description, term)
    || exists i :: 0 <= i < |e.tags| && ContainsIgnoreCase(e.tags[i], term)
  }

  /**
   * The search effect: a blank term shows every entry, any other term the
   * entries it matches. The term is trimmed only for the blank test.
   */
  function FilterEntries(entries: seq<Entry>, searchTerm: string): (r: seq<Entry>)
    ensures Trim(searchTerm) == [] ==> r == entries
    ensures Trim(searchTerm) != [] ==> forall i :: 0 <= i < |r| ==> r[i] in entries && Matches(r[i], searchTerm)
    ensures Trim(searchTerm) != [] ==> forall i :: 0 <= i < |entries| && Matches(entries[i], searchTerm) ==> entries[i] in r
  {
    if Trim(searchTerm) == [] then entries else Filter(entries, e => Matches(e, searchTerm))
  }

  /** The search keeps the entries' order: filtering two runs of entries filters each. */
  lemma FilterEntriesAppend(a: seq<Entry>, b: seq<Entry>, searchTerm: string)
    ensures FilterEntries(a + b, searchTerm) == FilterEntries(a, searchTerm) + FilterEntries(b, searchTerm)
  {
    if Trim(searchTerm) != [] {
      FilterAppend(a, b, e => Matches(e, searchTerm));
    }
  }

  /**
   * `handleCreateEntry`: a blank title does nothing; otherwise the new entry,
   * with trimmed title and description, the parsed tags and both time stamps
   * `now`, goes first, the form is cleared and the dialog closed.
   */
  function CreateEntry(p: Page, newId: string, now: int, ok: bool): (r: Page)
    ensures Trim(p.form.title) == [] || !ok ==> r == p
    ensures Trim(p.form.title) != [] && ok ==>
              && |r.entries| == |p.entries| + 1 && r.entries[1..] == p.entries
              && r.entries[0].id == newId
              && r.entries[0].title != [] && r.entries[0].title == Trim(p.form.title)
              && r.entries[0].description == Trim(p.form.description)
              && r.entries[0].tags == ItemList(p.form.tags, ",")
              && r.entries[0].createdAt == r.entries[0].updatedAt == now
              && r.form == EmptyForm && !r.createOpen
              && r.editingEntry == p.editingEntry && r.editOpen == p.editOpen
  {
    if Trim(p.form.title) == [] || !ok then p
    else
      var entry := Entry(newId, Trim(p.form.title), Trim(p.form.description), ItemList(p.form.tags, ","), now, now);
      p.(entries := [entry] + p.entries, form := EmptyForm, createOpen := false)
  }

  /** `entries.map(e => e.id === id ? updated : e)`. */
  function ReplaceById(entries: seq<Entry>, id: string, updated: Entry): (r: seq<Entry>)
    ensures |r| == |entries|
    ensures forall i :: 0 <= i < |entries| ==> r[i] == if entries[i].id == id then updated else entries[i]
  {
    if entries == [] then []
    else [if entries[0].id == id then updated else entries[0]] + ReplaceById(entries[1..], id, updated)
  }

  /** The entry being edited, with the form's fields and the new time stamp; id and creation time are kept. */
  function Edited(e: Entry, form: EntryForm, now: int): (r: Entry)
    ensures r.id == e.id && r.createdAt == e.createdAt && r.updatedAt == now
  {
    e.(title := Trim(form.title), description := Trim(form.description), tags := ItemList(form.tags, ","), updatedAt := now)
  }

  /**
   * `handleUpdateEntry`: nothing happens without an entry being edited or
   * with a blank title; otherwise every entry with the edited entry's id is
   * replaced by its edited version, the others stay, and editing ends.
   */
  function UpdateEntry(p: Page, now: int, ok: bool): (r: Page)
    ensures p.editingEntry.None? || Trim(p.form.title) == [] || !ok ==> r == p
    ensures p.editingEntry.Some? && Trim(p.form.title) != [] && ok ==>
              && |r.entries| == |p.entries|
              && (forall i :: 0 <= i < |p.entries| && p.entries[i].id != p.editingEntry.value.id ==> r.entries[i] == p.entries[i])
              && (forall i :: 0 <= i < |p.entries| && p.entries[i].id == p.editingEntry.value.id ==>
                    && r.entries[i].id == p.entries[i].id
                    && r.entries[i].createdAt == p.editingEntry.value.createdAt
                    && r.entries[i].updatedAt == now
                    && r.entries[i].title == Trim(p.form.title)
                    && r.entries[i].description == Trim(p.form.description)
                    && r.entries[i].tags == ItemList(p.form.tags, ","))
              && r.editingEntry.None? && r.form == EmptyForm && !r.editOpen && r.createOpen == p.createOpen
  {
    if p.editingEntry.None? || Trim(p.form.title) == [] || !ok then p
    else
      var updated := Edited(p.editingEntry.value, p.form, now);
      p.(entries := ReplaceById(p.entries, p.editingEntry.value.id, updated),
         form := EmptyForm, editingEntry := None, editOpen := false)
  }

  /**
   * `handleDeleteEntry`: unless the user declines the confirmation, every
   * entry with the id is removed and the others keep their order.
   */
  function DeleteEntry(p: Page, entryId: string, confirmed: bool, ok: bool): (r: Page)
    ensures !confirmed || !ok ==> r == p
    ensures confirmed && ok ==>
              && (forall i :: 0 <= i < |r.entries| ==> r.entries[i] in p.entries && r.entries[i].id != entryId)
              && (forall i :: 0 <= i < |p.entries| && p.entries[i].id != entryId ==> p.entries[i] in r.entries)
              && r.editingEntry == p.editingEntry && r.form == p.form
              && r.createOpen == p.createOpen && r.editOpen == p.editOpen
  {
    if !confirmed || !ok then p else p.(entries := Filter(p.entries, OtherThan(entryId)))
  }

  /** The predicate `entry => entry.id !== entryId` of the delete handler. */
  function OtherThan(entryId: string): Entry -> bool
  {
    (e: Entry) => e.id != entryId
  }

  predicate DistinctIds(entries: seq<Entry>)
  {
    forall i, j :: 0 <= i < j < |entries| ==> entries[i].id != entries[j].id
  }

  /** With distinct ids, deleting an entry removes exactly that one and keeps the rest in order. */
  lemma DeleteOne(p: Page, k: nat)
    requires DistinctIds(p.entries) && k < |p.entries|
    ensures DeleteEntry(p, p.entries[k].id, true, true).entries == p.entries[..k] + p.entries[k + 1..]
  {
    FilterDropsOne(p.entries, k, OtherThan(p.entries[k].id));
  }

  /** `openEditDialog`: the form shows the entry, its tags joined with `", "`. */
  function OpenEditDialog(p: Page, entry: Entry): (r: Page)
    ensures r.editingEntry == Some(entry) && r.editOpen && r.entries == p.entries
    ensures r.form.title == entry.title && r.form.description == entry.description
  {
    p.(editingEntry := Some(entry), form := EntryForm(entry.title, entry.description, Join(entry.tags, ", ")), editOpen := true)
  }

  /** What a successful update does to the list. */
  lemma UpdatedEntries(p: Page, now: int)
    requires p.editingEntry.Some? && Trim(p.form.title) != []
    ensures UpdateEntry(p, now, true).entries
         == ReplaceById(p.entries, p.editingEntry.value.id, Edited(p.editingEntry.value, p.form, now))
  {
  }

  /** Tags as the create and update handlers store them: non-empty, trimmed, without a comma. */
  predicate CleanTags(tags: seq<string>)
  {
    forall k :: 0 <= k < |tags| ==> tags[k] != [] && IsTrimmed(tags[k]) && ',' !in tags[k]
  }

  /** The form as the edit dialog fills it reads back as the entry itself. */
  lemma EditedFromDialog(entry: Entry, now: int)
    requires IsTrimmed(entry.title) && IsTrimmed(entry.description) && CleanTags(entry.tags)
    ensures Edited(entry, EntryForm(entry.title, entry.description, Join(entry.tags, ", ")), now) == entry.(updatedAt := now)
  {
    TrimTrimmed(entry.title);
    TrimTrimmed(entry.description);
    ItemListSpacedRoundTrip(entry.tags);
  }

  /**
   * Opening an entry for editing and saving the form unchanged only renews
   * its time stamp: the joined tags read back as the same list.
   */
  lemma EditRoundTrip(p: Page, entry: Entry, now: int)
    requires entry.title != [] && IsTrimmed(entry.title) && IsTrimmed(entry.description) && CleanTags(entry.tags)
    ensures UpdateEntry(OpenEditDialog(p, entry), now, true).entries == ReplaceById(p.entries, entry.id, entry.(updatedAt := now))
  {
    var editing := OpenEditDialog(p, entry);
    assert Trim(editing.form.title) != [] by {
      TrimTrimmed(entry.title);
    }
    UpdatedEntries(editing, now);
    EditedFromDialog(entry, now);
  }
}
