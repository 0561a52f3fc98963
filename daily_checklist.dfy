/**
 * The daily checklist: a list of tasks kept in the browser's storage together
 * with the day it was last written. Loading on a later day clears every
 * check mark; every change to the list writes it back with the current day.
 * The storage entry is the `saved` field of the state and the current day
 * (`new Date().toDateString()`) is the parameter `today`.
 */
module DailyChecklist {
  import opened Wrappers
  import opened Text
  import opened Seqs

  datatype Task = Task(text: string, completed: bool)

  /** The stored record `{ tasks, lastUpdate }`. */
  datatype Saved = Saved(tasks: seq<Task>, lastUpdate: string)

  datatype Checklist = Checklist(tasks: seq<Task>, newTask: string, editingIndex: Option<int>,
                                 editText: string, saved: Option<Saved>)

  /** The list is what storage holds, written today. */
  predicate Stored(c: Checklist, today: string)
  {
    c.saved == Some(Saved(c.tasks, today))
  }

  /** `saveToLocalStorage` together with `setTasks`: the list becomes `tasks` and is stored with today's date. */
  function Save(c: Checklist, tasks: seq<Task>, today: string): (r: Checklist)
    ensures Stored(r, today) && r.tasks == tasks
  {
    c.(tasks := tasks, saved := Some(Saved(tasks, today)))
  }

  /** The same tasks, every check mark cleared. */
  function ResetDay(tasks: seq<Task>): (r: seq<Task>)
    ensures |r| == |tasks|
    ensures forall i :: 0 <= i < |r| ==> r[i].text == tasks[i].text && !r[i].completed
  {
    if tasks == [] then [] else [tasks[0].(completed := false)] + ResetDay(tasks[1..])
  }

  /**
   * The mount effect: without a stored record nothing happens; a record
   * from today is shown as it is; an older one is shown and stored again
   * with every task unchecked.
   */
  function Load(c: Checklist, today: string): (r: Checklist)
    ensures c.saved.None? ==> r == c
    ensures c.saved.Some? && c.saved.value.lastUpdate == today ==> r == c.(tasks := c.saved.value.tasks)
    ensures c.saved.Some? && c.saved.value.lastUpdate != today ==>
              Stored(r, today) && r.tasks == ResetDay(c.saved.value.tasks)
  {
    match c.saved
    case None => c
    case Some(s) =>
      if s.lastUpdate == today then c.(tasks := s.tasks) else Save(c, ResetDay(s.tasks), today)
  }

  /** `handleAddTask`: a blank entry does nothing; otherwise the trimmed text goes last, unchecked. */
  function AddTask(c: Checklist, today: string): (r: Checklist)
    ensures Trim(c.newTask) == [] ==> r == c
    ensures Trim(c.newTask) != [] ==>
              && Stored(r, today) && r.tasks == c.tasks + [Task(Trim(c.newTask), false)]
              && r.newTask == [] && r.editingIndex == c.editingIndex
  {
    if Trim(c.newTask) == [] then c
    else Save(c, c.tasks + [Task(Trim(c.newTask), false)], today).(newTask := [])
  }

  function Toggled(t: Task): Task
  {
    t.(completed := !t.completed)
  }

  /** `toggleTask`: the item at `index` changes its check mark, the others stay; the list is stored. */
  function ToggleTask(c: Checklist, index: int, today: string): (r: Checklist)
    ensures Stored(r, today) && |r.tasks| == |c.tasks|
    ensures forall i :: 0 <= i < |c.tasks| ==>
              r.tasks[i].text == c.tasks[i].text
              && (r.tasks[i].completed <==> (if i == index then !c.tasks[i].completed else c.tasks[i].completed))
  {
    Save(c, UpdateAt(c.tasks, index, Toggled), today)
  }

  /** `deleteTask`: every task but the one at `index` stays, in order; the list is stored. */
  function DeleteTask(c: Checklist, index: int, today: string): (r: Checklist)
    ensures Stored(r, today)
    ensures 0 <= index < |c.tasks| ==> r.tasks == c.tasks[..index] + c.tasks[index + 1..]
    ensures !(0 <= index < |c.tasks|) ==> r.tasks == c.tasks
  {
    Save(c, RemoveIndex(c.tasks, index), today)
  }

  /** `startEdit`: the item at `index` is being edited, its text in the edit field. */
  function StartEdit(c: Checklist, index: int): (r: Checklist)
    requires 0 <= index < |c.tasks|
    ensures r.editingIndex == Some(index) && r.editText == c.tasks[index].text
    ensures r.tasks == c.tasks && r.saved == c.saved
  {
    c.(editingIndex := Some(index), editText := c.tasks[index].text)
  }

  /** The cancel button: editing ends, nothing is stored. */
  function CancelEdit(c: Checklist): (r: Checklist)
    ensures r.editingIndex.None? && r.tasks == c.tasks && r.saved == c.saved
  {
    c.(editingIndex := None)
  }

  /**
   * `saveEdit`: a blank text does nothing; otherwise the item being edited
   * (if any) gets the trimmed text and keeps its check mark, the list is
   * stored and editing ends.
   */
  function SaveEdit(c: Checklist, today: string): (r: Checklist)
    ensures Trim(c.editText) == [] ==> r == c
    ensures Trim(c.editText) != [] ==>
              && Stored(r, today) && |r.tasks| == |c.tasks|
              && r.editingIndex.None? && r.editText == []
              && forall i :: 0 <= i < |c.tasks| ==>
                   r.tasks[i].completed == c.tasks[i].completed
                   && r.tasks[i].text == (if c.editingIndex == Some(i) then Trim(c.editText) else c.tasks[i].text)
  {
    if Trim(c.editText) == [] then c
    else
      var text := Trim(c.editText);
      var tasks := if c.editingIndex.Some? then UpdateAt(c.tasks, c.editingIndex.value, (t: Task) => t.(text := text)) else c.tasks;
      Save(c, tasks, today).(editingIndex := None, editText := [])
  }

  /** Task texts as the handlers write them: non-blank and trimmed. */
  predicate CleanTexts(tasks: seq<Task>)
  {
    forall i :: 0 <= i < |tasks| ==> tasks[i].text != [] && IsTrimmed(tasks[i].text)
  }

  /** Adding keeps the item texts non-blank and trimmed. */
  lemma AddKeepsCleanTexts(c: Checklist, today: string)
    requires CleanTexts(c.tasks)
    ensures CleanTexts(AddTask(c, today).tasks)
  {
    if Trim(c.newTask) != [] {
      var r := AddTask(c, today).tasks;
      TrimIsTrimmed(c.newTask);
      forall i | 0 <= i < |r|
        ensures r[i].text != [] && IsTrimmed(r[i].text)
      {
        if i < |c.tasks| {
          assert r[i] == c.tasks[i];
        } else {
          assert r[i].text == Trim(c.newTask);
        }
      }
    }
  }

  /** Toggling never touches a text. */
  lemma ToggleKeepsCleanTexts(c: Checklist, index: int, today: string)
    requires CleanTexts(c.tasks)
    ensures CleanTexts(ToggleTask(c, index, today).tasks)
  {
  }

  /** Deleting keeps the item texts non-blank and trimmed. */
  lemma DeleteKeepsCleanTexts(c: Checklist, index: int, today: string)
    requires CleanTexts(c.tasks)
    ensures CleanTexts(DeleteTask(c, index, today).tasks)
  {
    if 0 <= index < |c.tasks| {
      var r := DeleteTask(c, index, today).tasks;
      forall i | 0 <= i < |r|
        ensures r[i].text != [] && IsTrimmed(r[i].text)
      {
        assert r[i] == if i < index then c.tasks[i] else c.tasks[i + 1];
      }
    }
  }

  /** Saving an edit keeps the item texts non-blank and trimmed. */
  lemma SaveEditKeepsCleanTexts(c: Checklist, today: string)
    requires CleanTexts(c.tasks)
    ensures CleanTexts(SaveEdit(c, today).tasks)
  {
    if Trim(c.editText) != [] {
      var r := SaveEdit(c, today).tasks;
      TrimIsTrimmed(c.editText);
      forall i | 0 <= i < |r|
        ensures r[i].text != [] && IsTrimmed(r[i].text)
      {
        if c.editingIndex != Some(i) {
          assert r[i].text == c.tasks[i].text;
        }
      }
    }
  }

  /** Loading a second time on the same day changes nothing. */
  lemma LoadIdempotent(c: Checklist, today: string)
    ensures Load(Load(c, today), today) == Load(c, today)
  {
  }

  /** Loading keeps the texts and order of the list; on a new day only the check marks go. */
  lemma LoadKeepsTexts(c: Checklist, today: string)
    requires c.saved.Some?
    ensures |Load(c, today).tasks| == |c.saved.value.tasks|
    ensures forall i :: 0 <= i < |c.saved.value.tasks| ==>
              Load(c, today).tasks[i].text == c.saved.value.tasks[i].text
              && (c.saved.value.lastUpdate != today ==> !Load(c, today).tasks[i].completed)
  {
  }

  /** Toggling a task twice restores the list. */
  lemma ToggleTwice(c: Checklist, index: int, today: string)
    ensures ToggleTask(ToggleTask(c, index, today), index, today).tasks == c.tasks
  {
    var once := ToggleTask(c, index, today).tasks;
    var twice := ToggleTask(ToggleTask(c, index, today), index, today).tasks;
    assert |twice| == |c.tasks|;
    forall i | 0 <= i < |c.tasks|
      ensures twice[i] == c.tasks[i]
    {
      assert twice[i].text == once[i].text == c.tasks[i].text;
    }
  }

  /** Opening a clean task for editing and saving it unchanged leaves the list as it was. */
  lemma EditRoundTrip(c: Checklist, index: int, today: string)
    requires 0 <= index < |c.tasks| && CleanTexts(c.tasks)
    ensures SaveEdit(StartEdit(c, index), today).tasks == c.tasks
  {
    var editing := StartEdit(c, index);
    assert Trim(editing.editText) == c.tasks[index].text != [] by {
      TrimTrimmed(c.tasks[index].text);
    }
    var r := SaveEdit(editing, today).tasks;
    assert r == UpdateAt(c.tasks, index, (t: Task) => t.(text := c.tasks[index].text));
    assert c.tasks[index := c.tasks[index].(text := c.tasks[index].text)] == c.tasks;
  }
}
