/**
 * The weekly timetable: a grid of three time slots by seven days whose cells
 * hold free text, each empty cell suggesting one of eight activities in
 * rotation. The grid is an array of row arrays, as the page keeps it; a
 * change copies only the outer array, so the new grid shares its rows with
 * the old one and the row written to changes in both.
 */
module Timetable {

  const Days: seq<string> := ["Monday", "Tuesday", "Wednesday", "Thursday", "Friday", "Saturday", "Sunday"]

  const TimeSlots: seq<string> := ["Morning", "Afternoon", "Evening"]

  const InitialActivities: seq<string> := [
    "Music Practice", "Music Theory",
    "Painting Practice", "Painting Theory",
    "Programming Practice", "Programming Theory",
    "Science Theory", "Science Practice"
  ]

  /** The text of the first `n` rows of a grid. */
  function Rows(grid: array<array<string>>, n: nat): (r: seq<seq<string>>)
    requires n <= grid.Length
    reads grid, grid[..]
    ensures |r| == n && forall i :: 0 <= i < n ==> r[i] == grid[i][..]
  {
    if n == 0 then [] else Rows(grid, n - 1) + [grid[n - 1][..]]
  }

  /** The text of every cell, row by row. */
  function Cells(grid: array<array<string>>): seq<seq<string>>
    reads grid, grid[..]
  {
    Rows(grid, grid.Length)
  }

  /** No two slots share a row array. */
  predicate DistinctRows(grid: array<array<string>>)
    reads grid
  {
    forall i, j :: 0 <= i < j < grid.Length ==> grid[i] != grid[j]
  }

  /** `timeSlots.map(() => days.map(() => ''))`: one fresh row of seven empty cells per slot. */
  method InitialSchedule() returns (grid: array<array<string>>)
    ensures fresh(grid) && DistinctRows(grid)
    ensures forall i :: 0 <= i < grid.Length ==> fresh(grid[i])
    ensures grid.Length == |TimeSlots|
    ensures forall i :: 0 <= i < grid.Length ==> grid[i][..] == seq(|Days|, _ => "")
  {
    grid := new array<string>[|TimeSlots|];
    var slot := 0;
    while slot < |TimeSlots|
      invariant 0 <= slot <= |TimeSlots|
      invariant forall i :: 0 <= i < slot ==> fresh(grid[i]) && grid[i][..] == seq(|Days|, _ => "")
      invariant forall i, j :: 0 <= i < j < slot ==> grid[i] != grid[j]
    {
      var row := new string[|Days|](_ => "");
      grid[slot] := row;
      slot := slot + 1;
    }
  }

  /**
   * `handleCellChange`: `[...schedule]` copies the outer array, then the
   * cell is assigned through the copy. The copy holds the very same rows,
   * the assigned cell has the value and every other cell keeps its text;
   * the old grid, sharing the row, shows the new value as well.
   */
  method HandleCellChange(schedule: array<array<string>>, slotIndex: nat, dayIndex: nat, value: string)
    returns (newSchedule: array<array<string>>)
    requires DistinctRows(schedule)
    requires slotIndex < schedule.Length && dayIndex < schedule[slotIndex].Length
    modifies schedule[slotIndex]
    ensures fresh(newSchedule) && newSchedule.Length == schedule.Length
    ensures forall i :: 0 <= i < schedule.Length ==> newSchedule[i] == schedule[i]
    ensures Cells(newSchedule) == old(Cells(schedule))[slotIndex := old(schedule[slotIndex][..])[dayIndex := value]]
    ensures Cells(schedule) == Cells(newSchedule)
  {
    ghost var before := Cells(schedule);
    newSchedule := new array<string>[schedule.Length];
    var i := 0;
    while i < schedule.Length
      invariant 0 <= i <= schedule.Length
      invariant forall k :: 0 <= k < i ==> newSchedule[k] == schedule[k]
      modifies newSchedule
    {
      newSchedule[i] := schedule[i];
      i := i + 1;
    }
    newSchedule[slotIndex][dayIndex] := value;
    ghost var expected := before[slotIndex := before[slotIndex][dayIndex := value]];
    forall k | 0 <= k < schedule.Length
      ensures schedule[k][..] == expected[k]
    {
      assert before[k] == old(schedule[k][..]);
      if k != slotIndex {
        assert schedule[k] != schedule[slotIndex];
        assert schedule[k][..] == old(schedule[k][..]);
      }
    }
    assert Cells(schedule) == expected;
    assert Cells(newSchedule) == expected;
  }

  /** `(slotIndex * days.length + dayIndex) % initialActivities.length`. */
  function PlaceholderIndex(slotIndex: nat, dayIndex: nat): (k: nat)
    ensures k < |InitialActivities|
  {
    (slotIndex * |Days| + dayIndex) % |InitialActivities|
  }

  /** The activity an empty cell suggests: always one of the eight activities. */
  function Placeholder(slotIndex: nat, dayIndex: nat): (r: string)
    ensures r in InitialActivities
  {
    InitialActivities[PlaceholderIndex(slotIndex, dayIndex)]
  }

  /** Moving one cell along the grid, across the end of a row too, suggests the next activity in the cycle. */
  lemma PlaceholderRotates(slotIndex: nat, dayIndex: nat)
    requires dayIndex < |Days|
    ensures var next := if dayIndex + 1 < |Days| then PlaceholderIndex(slotIndex, dayIndex + 1)
                        else PlaceholderIndex(slotIndex + 1, 0);
            next == (PlaceholderIndex(slotIndex, dayIndex) + 1) % |InitialActivities|
  {
    assert |Days| == 7 && |InitialActivities| == 8;
    var n := slotIndex * 7 + dayIndex;
    if dayIndex + 1 == |Days| {
      assert (slotIndex + 1) * 7 + 0 == n + 1;
    }
    NextMod8(n);
  }

  /** Counting on by one modulo eight. */
  lemma NextMod8(n: nat)
    ensures (n % 8 + 1) % 8 == (n + 1) % 8
  {
    var q, r := n / 8, n % 8;
    if r < 7 {
      assert n + 1 == 8 * q + (r + 1);
    } else {
      assert n + 1 == 8 * (q + 1);
    }
  }

  /** Every activity is suggested by some cell of the first two slots. */
  lemma EveryActivitySuggested(k: nat)
    requires k < |InitialActivities|
    ensures exists slot: nat, day: nat :: slot < |TimeSlots| && day < |Days| && Placeholder(slot, day) == InitialActivities[k]
  {
    var slot, day := k / 7, k % 7;
    assert slot * 7 + day == k;
    assert PlaceholderIndex(slot, day) == k;
    assert slot < |TimeSlots| && day < |Days| && Placeholder(slot, day) == InitialActivities[k];
  }
}
