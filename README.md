# swnntools core, modelled in Dafny

This project models the logic behind the pages of a Next.js tool collection.
Rendering is left out.

**The main core is `app/algo-visual/page.tsx`.** It is a small compiler from functional pseudo-code
(`f (S n) = mult (S n) (f n)`) to a flow chart, and it has two parts:

- `FunctionalParser` pads `(`, `)` and `=` with spaces, splits each trimmed, non-blank line on
  white space, and parses it by recursive descent into a function name, patterns and one
  application term. A line that does not parse is dropped.
  - `Tokenizer`: the tokenizer.
  - `ParserSpec`: the recursive-descent grammar, as pure functions over a token list and a cursor.
  - `Parser`: the class with its cursor field and `while` loops, proved equal to those functions.
  - `ParserProperties`, `ParserFrame`: the properties of the parser, including a printer whose
    output parses back to the same clauses.
- `FlowChartGenerator` groups the clauses by function name in first-seen order. It draws an entry
  node per function, a pattern node per clause, and a subtree per clause body, all with integer
  layout.
  - Each call of `generateTermFlow` appends its whole returned list to the chart, so a node at
    depth d appears d + 1 times. The model keeps that.
  - `FlowChartSpec`: the generator as functions over a `Chart` value (counter, nodes, edges).
  - `FlowChart`: the class with its counter and lists, proved equal to those functions.
  - `FlowChartGroups`, `FlowChartProperties`: grouping, node and edge counts, layout, closed edges
    and pattern labels.

**The other pages are small state handlers.** Each is modelled in its own module:

- `CategoryTheory`: the category and functor editors.
- `QDatabase`: search, create, update and delete in the question database.
- `DailyChecklist`: the daily checklist.
- `TaskSwitcher`: the pomodoro timer, as a class.
- `Timetable`: the weekly grid, as arrays of arrays.
- `UiChooser`: the component guide's nested search, as a method with nested loops.
- `DocSearch`: the documentation search.
- `DataView`: the data viewer.
- `Complexity`: the complexity dashboard.
- `RandStuff`: the random picker.
- `Lego`: the open/closed set of the Lego template groups, as a class over a set.

**Shared modules:**

- `Text`: `trim`, `split`, `join`, `includes`, ASCII `toLowerCase`, `padStart` and number rendering.
- `Seqs`: `filter`, removing an index, `map` at one index, `reverse`.
- `Flags`: toggling a key in a `{...prev, [k]: !prev[k]}` dictionary.
- `Wrappers`: `Option`.

**Modelling conventions:**

- A React state update is a function from the old state to the new one.
- Clocks, `Math.random()` and storage are parameters: `now`, `today`, a real `r` with `0 <= r < 1`,
  and the stored value.
- A database call that may fail is a boolean `ok`.

## Model

| member | source | states |
|---|---|---|
| Tokenizer.Tokenize | app/algo-visual/page.tsx:50-55 | every token is non-empty, has no white space, and is either a lone `(`, `)` or `=` or free of them; concatenated, the tokens are the line without its white space |
| Tokenizer.TokenizeJoin | app/algo-visual/page.tsx:50-55 | tokens of that shape joined by single spaces tokenize back to the same list |
| Tokenizer.TokenizeIsScan | app/algo-visual/page.tsx:50-55 | the three `replace` calls and the split agree with a one-pass scan that emits each delimiter as its own token |
| ParserSpec.PatternAt | app/algo-visual/page.tsx:89-145 | `parsePattern` never moves the cursor backwards or past the end, always moves it on a non-exhausted stream, and fails only at the end of the tokens |
| ParserSpec.PatternsUntil | app/algo-visual/page.tsx:72-75 | the pattern loop stops at the end of the tokens or on the stop token, never earlier |
| ParserSpec.AtomAt | app/algo-visual/page.tsx:177-207 | `parseAtom` always advances on a non-exhausted stream, fails only at the end, and builds no application with zero arguments |
| ParserSpec.ApplicationAt | app/algo-visual/page.tsx:153-175 | `parseApplication` advances, stops at the end or on a `)`, and yields an application only with at least one argument |
| ParserSpec.ArgumentsAt | app/algo-visual/page.tsx:160-164 | the argument loop stops at the end or on a `)` |
| ParserSpec.NonBlankLines | app/algo-visual/page.tsx:45 | the lines visited are trimmed and non-empty, never more than the pieces of the split |
| ParserSpec.ParseLines | app/algo-visual/page.tsx:48-60 | at most one definition per line |
| ParserSpec.IsConstructorToken | app/algo-visual/page.tsx:142 | a bare pattern token is a constructor iff it is non-empty and does not start with a lower-case letter; the test for `Z` adds nothing |
| ParserSpec.IsNumeric | app/algo-visual/page.tsx:195 | a token read as a number holds a digit, and every non-empty run of digits is read as a number |
| ParserSpec.TermAt | app/algo-visual/page.tsx:147-151 | `parseTerm` moves the cursor forward within the tokens, stops at the end or on an unread `)`, fails only when the tokens run out, and builds no application without arguments |
| ParserSpec.DefinitionAt | app/algo-visual/page.tsx:65-87 | a definition takes at least three tokens, is named by the first one, and has a well-formed body |
| ParserSpec.LineDefinition | app/algo-visual/page.tsx:50-58 | the definition read from a line is named by one of the line's tokens and has a well-formed body |
| ParserSpec.Parse | app/algo-visual/page.tsx:43-62 | at most one definition per non-blank line, each named by a token and with a well-formed body |
| Parser.FunctionalParser.constructor | app/algo-visual/page.tsx:40-42 | a parser starts with no tokens and its cursor at 0 |
| Parser.FunctionalParser.Parse | app/algo-visual/page.tsx:43-63 | the loop over lines, re-tokenizing and resetting the cursor per line, returns exactly the definitions of the grammar, in line order |
| Parser.FunctionalParser.ParseDefinition | app/algo-visual/page.tsx:65-87 | the method reads the definition the grammar gives at the cursor |
| Parser.FunctionalParser.ParsePatternsUntil | app/algo-visual/page.tsx:72-75 | the `while` loop collects the patterns the grammar gives and leaves the cursor where the grammar stops |
| Parser.FunctionalParser.ParsePattern | app/algo-visual/page.tsx:89-145 | the method returns the grammar's pattern and moves the cursor as the grammar does |
| Parser.FunctionalParser.ParseTerm | app/algo-visual/page.tsx:147-151 | the method returns the grammar's term and moves the cursor as the grammar does |
| Parser.FunctionalParser.ParseApplication | app/algo-visual/page.tsx:153-175 | the argument loop with its `break` returns the grammar's application and moves the cursor as the grammar does |
| Parser.FunctionalParser.ParseAtom | app/algo-visual/page.tsx:177-207 | the method returns the grammar's atom and moves the cursor as the grammar does |
| ParserProperties.NoEqualsNoDefinition | app/algo-visual/page.tsx:77-79 | a line with no `=` token yields no definition |
| ParserProperties.NoBodyNoDefinition | app/algo-visual/page.tsx:83-84 | a line whose first `=` is its last token yields no definition |
| ParserProperties.ParseLinesSpec | app/algo-visual/page.tsx:48-62 | every definition returned is the definition of one of the lines, and there are no more of them than lines |
| ParserProperties.DefinitionNameIsFirstToken | app/algo-visual/page.tsx:68-86 | a parsed definition is named by the line's first token and its body has no empty application |
| ParserProperties.ParenthesisedIsConstructor | app/algo-visual/page.tsx:95-116 | `( Name p* )` is a constructor named by the token after `(`, whatever its case, with the patterns up to `)` |
| ParserProperties.NameBeforeParenthesisIsConstructor | app/algo-visual/page.tsx:119-138 | `Name ( p* )` is a constructor named `Name`, with the patterns up to `)` |
| ParserProperties.BareTokenClassification | app/algo-visual/page.tsx:140-144 | a bare token is a zero-argument constructor iff it is `Z` or its first character is unchanged by upper-casing, and a variable otherwise |
| ParserProperties.PatternRoundTrip | app/algo-visual/page.tsx:89-145 | a printable pattern, printed, reads back as itself and consumes exactly its tokens |
| ParserProperties.PatternListRoundTrip | app/algo-visual/page.tsx:72-107 | a printed list of patterns closed by `=` or `)` reads back as the same list |
| ParserProperties.AtomRoundTrip | app/algo-visual/page.tsx:177-207 | a printable atom reads back as itself |
| ParserProperties.TermRoundTrip | app/algo-visual/page.tsx:153-175 | a printable body closed by `)` or the end reads back as itself |
| ParserProperties.AtomListRoundTrip | app/algo-visual/page.tsx:160-164 | printable arguments closed by `)` or the end are read back by the argument loop as the same list |
| ParserProperties.DefinitionRoundTrip | app/algo-visual/page.tsx:65-87 | a printable clause's tokens parse back to the clause |
| ParserProperties.DefinitionLineRoundTrip | app/algo-visual/page.tsx:45-58 | a printable clause on one line is non-blank and trimmed, and parses back to the clause |
| ParserProperties.ProgramRoundTrip | app/algo-visual/page.tsx:43-63 | a program printed one clause per line parses back to the same list of clauses |
| ParserFrame.BareAtomClassification | app/algo-visual/page.tsx:192-206 | a bare atom is a literal iff its token is numeric, a variable otherwise, and keeps the token's text |
| ParserFrame.AtomFrame | app/algo-visual/page.tsx:177-207 | an atom reads no token past the point where it stops |
| ParserFrame.ApplicationFrame | app/algo-visual/page.tsx:153-175 | an application reads no token past the point where it stops |
| ParserFrame.PatternFrame | app/algo-visual/page.tsx:89-145 | a pattern reads no token past its one-token look-ahead |
| ParserFrame.DefinitionFrame | app/algo-visual/page.tsx:65-87 | a definition whose patterns and body stop before a point reads the same from any token list that agrees up to that point |
| ParserFrame.StrayParenthesisIgnored | app/algo-visual/page.tsx:83-160 | a body stops at a `)` that closes nothing, and every token after it can be replaced without changing the definition |
| FlowChartSpec.RootNode | app/algo-visual/page.tsx:289-313 | a term's node carries the id and position it was given; its kind tells literals, variables and applications apart; a literal shows its text, a variable its name or `var`, an application its head's label, and the last two are never empty |
| FlowChartSpec.HeadLabel | app/algo-visual/page.tsx:311 | an application's label is never empty: the head's name when the head is a named variable, `apply` when the head is not a variable |
| FlowChartSpec.TermNodes | app/algo-visual/page.tsx:289-335 | the list `generateTermFlow` returns begins with the term's own node |
| FlowChartSpec.TermEdges | app/algo-visual/page.tsx:314-330 | a term's subtree has edges iff the term applies something to arguments |
| FlowChartSpec.FormatPattern | app/algo-visual/page.tsx:337-343 | the text starts with the pattern's name, and a pattern without arguments is its name alone |
| FlowChartSpec.PatternLabel | app/algo-visual/page.tsx:256-258 | no patterns give `default`; a single pattern gives that pattern's text |
| FlowChartSpec.AddToGroups | app/algo-visual/page.tsx:223-228 | filing a clause keeps the number of groups or opens one more |
| FlowChartSpec.GroupByName | app/algo-visual/page.tsx:222-228 | no more groups than clauses, none iff there are no clauses, and the first group is the first clause's function |
| FlowChartProperties.ClausesFlowCounts | app/algo-visual/page.tsx:251-285 | the first k clauses take exactly two ids each from the counter and add, per clause, a pattern node plus the body's nodes and a case edge plus the body's edges plus the body edge |
| FlowChartProperties.FunctionFlowCounts | app/algo-visual/page.tsx:237-287 | a function takes one id for its entry and two per clause, and adds its entry node plus every clause's nodes and edges |
| FlowChartProperties.GenerateEmpty | app/algo-visual/page.tsx:216-236 | the chart has nodes iff there are clauses, and no clauses give no edges |
| FlowChart.FlowChartGenerator.constructor | app/algo-visual/page.tsx:211-214 | a generator starts with counter 0 and empty lists |
| FlowChart.FlowChartGenerator.GenerateFlowChart | app/algo-visual/page.tsx:216-237 | the method resets the counter and lists, builds the insertion-ordered groups in a loop, draws each group, and returns the chart of the functional model |
| FlowChart.FlowChartGenerator.GenerateFunctionFlow | app/algo-visual/page.tsx:237-287 | the method draws the entry node and loops over the clauses exactly as the functional model does |
| FlowChart.FlowChartGenerator.DrawClause | app/algo-visual/page.tsx:251-286 | one clause takes two ids and adds its pattern node, `case` edge, body subtree and body edge |
| FlowChart.FlowChartGenerator.GenerateTermFlow | app/algo-visual/page.tsx:289-335 | the method returns the term's node list, appends that list (its descendants' lists included) to the chart, and adds the term's edges |
| FlowChart.FlowChartGenerator.DrawArgument | app/algo-visual/page.tsx:316-329 | argument `index` is drawn at its offset 100 units lower, with an `arg index+1` edge |
| FlowChartGroups.GroupByNameSpec | app/algo-visual/page.tsx:222-231 | groups have distinct names, appear in order of each name's first clause, cover every clause, and hold exactly the clauses of their name in order |
| FlowChartGroups.AddToExisting | app/algo-visual/page.tsx:224-227 | a clause whose name has a group joins the end of that group, and no other group changes |
| FlowChartGroups.AddToNew | app/algo-visual/page.tsx:224-227 | a clause with a new name opens a group at the end |
| FlowChartProperties.ArgXIsSourceOffset | app/algo-visual/page.tsx:318 | the fractional offset `(j - n/2 + 0.5) * 150` equals the integer `ArgX` |
| FlowChartProperties.ArgXSpacing | app/algo-visual/page.tsx:318 | arguments are 150 apart, left to right, and symmetric about their parent |
| FlowChartProperties.TermCounts | app/algo-visual/page.tsx:289-335 | a term's returned list has one node per term node, and there is one edge fewer |
| FlowChartProperties.AppendedCount | app/algo-visual/page.tsx:319-333 | a term appends the sum over its nodes of depth + 1 nodes |
| FlowChartProperties.DuplicatesIffApplication | app/algo-visual/page.tsx:319-333 | nodes are appended more than once exactly when the body is an application with arguments |
| FlowChartProperties.GroupByNameTotal | app/algo-visual/page.tsx:222-228 | grouping neither loses nor repeats a clause |
| FlowChartProperties.GenerateCounts | app/algo-visual/page.tsx:216-333 | the chart has one edge per clause plus its body's edges plus one, and one node per group plus, per clause, a pattern node and the body's depth-weighted node count |
| FlowChartProperties.ChartLayout | app/algo-visual/page.tsx:233-284 | the k-th group's entry is at (0, 300k); its clause i has its pattern node at (100 + 250i, 300k + 80), its body root 80 units lower, a `case i+1` edge and a body edge |
| FlowChartProperties.GenerateClosed | app/algo-visual/page.tsx:216-335 | every edge of the chart leaves and enters a node of the chart |
| FlowChartProperties.ClausesFlowGrows | app/algo-visual/page.tsx:251-286 | drawing more clauses only appends nodes and edges |
| FlowChartProperties.GroupsFlowGrows | app/algo-visual/page.tsx:230-234 | drawing more functions only appends nodes and edges |
| FlowChartProperties.FormatPatternNames | app/algo-visual/page.tsx:337-343 | `formatPattern` writes the names in pre-order, one space apart, with no parenthesis |
| FlowChartProperties.PatternLabelNames | app/algo-visual/page.tsx:256-258 | a pattern label is `default` for a clause with no patterns, else the names in pre-order |
| FlowChartProperties.PatternLabelSplits | app/algo-visual/page.tsx:256-343 | a label splits on spaces back into the names and holds no parenthesis, so nesting is lost |
| PseudoAst.Size | app/algo-visual/page.tsx:289-335 | every term has at least one node |
| Text.TrimSpec | app/algo-visual/page.tsx:45 | `trim` returns a slice whose two cut-off ends are white space, and the result is trimmed |
| Text.TrimIdempotent | app/q-database/page.tsx:91 | trimming twice is trimming once |
| Text.ContainsSpec | app/q-database/page.tsx:55 | `includes` holds iff the needle occurs at some index |
| Text.ToLower | app/q-database/page.tsx:55-57 | every character is lower-cased in place, the length kept |
| Text.JoinSplit | app/category-theory/page.tsx:71 | joining the pieces of a split with the separator gives the input back |
| Text.SplitJoin | app/category-theory/page.tsx:73 | a join of pieces free of the separator splits back into the pieces |
| Text.ItemListTrimmed | app/q-database/page.tsx:95-98 | each item of a comma list is non-empty and trimmed |
| Text.ItemListRoundTrip | app/category-theory/page.tsx:71 | trimmed, non-empty, separator-free items joined by the separator read back as the same list |
| Text.ItemListSpacedRoundTrip | app/q-database/page.tsx:130-178 | items joined by `", "` read back as the same items |
| Text.NatToStringValue | app/taskswitcher2/page.tsx:77 | the decimal rendering of a number reads back as the number |
| Text.NatToStringInjective | app/data-view/page.tsx:14 | different numbers render differently |
| Text.ZeroPadValue | app/taskswitcher2/page.tsx:77 | zero-padding keeps a digit string a digit string of the same value |
| Text.PadStart | app/taskswitcher2/page.tsx:77 | the text ends the result, preceded only by pad characters up to the width |
| CategoryTheory.ParseMorphism | app/category-theory/page.tsx:73-79 | a chunk gives a morphism iff its trimmed text splits on `:` into exactly two parts; its id and name are then both the trimmed part before `:` |
| CategoryTheory.ParseMorphismOf | app/category-theory/page.tsx:75-77 | `from` and `to` are the first two trimmed `->` pieces; without a second piece `to` is undefined |
| CategoryTheory.MorphismRoundTrip | app/category-theory/page.tsx:72-80 | `name: from->to` reads back as that morphism with id `name` |
| CategoryTheory.MorphismWithoutArrow | app/category-theory/page.tsx:76 | `name: from` gives a morphism whose target is undefined |
| CategoryTheory.MorphismsRoundTrip | app/category-theory/page.tsx:72-80 | a list of morphisms written as comma-separated chunks reads back as the same list |
| CategoryTheory.MorphismsOf | app/category-theory/page.tsx:80 | dropping chunks never makes more morphisms than chunks |
| CategoryTheory.ParseMorphisms | app/category-theory/page.tsx:72-80 | at most one morphism per comma-separated chunk, each with its name as its id |
| CategoryTheory.MorphismsOfParsed | app/category-theory/page.tsx:72-80 | when every chunk parses, all are kept, in order |
| CategoryTheory.AddCategory | app/category-theory/page.tsx:68-92 | an empty name does nothing; otherwise the new category is appended after the unchanged ones with the parsed objects and morphisms, and the form is cleared |
| CategoryTheory.MappingPairRoundTrip | app/category-theory/page.tsx:99-100 | `key->value` gives that pair |
| CategoryTheory.MappingPair | app/category-theory/page.tsx:99-100 | a kept mapping has non-empty, trimmed sides |
| CategoryTheory.CollectKeys | app/category-theory/page.tsx:97-101 | a key is in the dictionary iff some piece maps it |
| CategoryTheory.CollectLastWins | app/category-theory/page.tsx:100 | the last piece mapping a key decides its value |
| CategoryTheory.Mapping | app/category-theory/page.tsx:97-101 | every key and every value of a functor dictionary is non-empty and trimmed |
| CategoryTheory.BuildMapping | app/category-theory/page.tsx:97-101 | the `forEach` loop writing into the dictionary builds the mapping the pieces define |
| CategoryTheory.AddFunctor | app/category-theory/page.tsx:94-121 | a missing name, source or target does nothing; otherwise the functor with both mappings is appended and the form is cleared |
| QDatabase.FilterEntries | app/q-database/page.tsx:50-60 | a blank term shows every entry; otherwise exactly the entries that match in title, description or a tag, ignoring case |
| QDatabase.FilterEntriesAppend | app/q-database/page.tsx:54-58 | the search keeps the entries' order |
| QDatabase.Matches | app/q-database/page.tsx:54-58 | the empty term matches every entry |
| QDatabase.CreateEntry | app/q-database/page.tsx:90-123 | a blank title or a failed write does nothing; otherwise the new entry, with trimmed text, parsed tags and equal time stamps, goes first and the rest follow unchanged |
| QDatabase.ReplaceById | app/q-database/page.tsx:150-152 | only entries with the id are replaced |
| QDatabase.Edited | app/q-database/page.tsx:142-148 | an edited entry keeps its id and creation time and takes the new time stamp |
| QDatabase.UpdateEntry | app/q-database/page.tsx:125-160 | with no entry being edited, a blank title or a failed write nothing changes; otherwise the list keeps its length, entries with another id stay, each entry with the edited id keeps its id and the edited creation time and takes the trimmed title and description, the parsed tags and the new time stamp, and the dialog closes |
| QDatabase.DeleteEntry | app/q-database/page.tsx:162-171 | without confirmation or on failure nothing changes; otherwise the entries with that id go, the others stay, and the form and both dialogs are untouched |
| QDatabase.DeleteOne | app/q-database/page.tsx:167 | with distinct ids, deleting removes exactly that position and keeps the order of the rest |
| QDatabase.OpenEditDialog | app/q-database/page.tsx:173-181 | the dialog shows the entry's title and description and edits that entry |
| QDatabase.EditedFromDialog | app/q-database/page.tsx:130-178 | an entry edited with its own dialog text is the entry with a new update time |
| QDatabase.EditRoundTrip | app/q-database/page.tsx:125-181 | opening a stored entry and saving the form unchanged only renews its time stamp |
| DailyChecklist.Save | app/daily-checklist/page.tsx:37-43 | the list becomes the given tasks and is stored with today's date |
| DailyChecklist.ResetDay | app/daily-checklist/page.tsx:26-29 | the same texts in the same order, every check mark cleared |
| DailyChecklist.Load | app/daily-checklist/page.tsx:16-34 | nothing stored: nothing changes; stored today: restored unchanged; stored earlier: restored unchecked and stored again |
| DailyChecklist.AddTask | app/daily-checklist/page.tsx:46-53 | a blank entry does nothing; otherwise the trimmed text goes last, unchecked, the list is stored and the input cleared |
| DailyChecklist.ToggleTask | app/daily-checklist/page.tsx:56-62 | only the item at the index changes its check mark; the list is stored |
| DailyChecklist.DeleteTask | app/daily-checklist/page.tsx:65-69 | exactly the item at the index goes, the rest keep their order; the list is stored |
| DailyChecklist.StartEdit | app/daily-checklist/page.tsx:72-75 | the item at the index is being edited, its text in the field |
| DailyChecklist.CancelEdit | app/daily-checklist/page.tsx:135 | editing ends and the list is untouched |
| DailyChecklist.SaveEdit | app/daily-checklist/page.tsx:78-88 | blank text does nothing; otherwise only the edited task's text changes (trimmed), check marks stay, the list is stored and editing ends |
| DailyChecklist.AddKeepsCleanTexts | app/daily-checklist/page.tsx:46-53 | adding keeps every text non-blank and trimmed |
| DailyChecklist.ToggleKeepsCleanTexts | app/daily-checklist/page.tsx:56-62 | toggling keeps every text non-blank and trimmed |
| DailyChecklist.DeleteKeepsCleanTexts | app/daily-checklist/page.tsx:65-69 | deleting keeps every text non-blank and trimmed |
| DailyChecklist.SaveEditKeepsCleanTexts | app/daily-checklist/page.tsx:78-88 | saving an edit keeps every text non-blank and trimmed |
| DailyChecklist.LoadIdempotent | app/daily-checklist/page.tsx:16-34 | loading again the same day changes nothing |
| DailyChecklist.LoadKeepsTexts | app/daily-checklist/page.tsx:19-31 | loading keeps the texts and their order; on a new day every check mark is cleared |
| DailyChecklist.ToggleTwice | app/daily-checklist/page.tsx:56-62 | toggling a task twice restores the list |
| DailyChecklist.EditRoundTrip | app/daily-checklist/page.tsx:72-88 | opening a clean task and saving it unchanged leaves the list as it was |
| TaskSwitcher.TwoDigits | app/taskswitcher2/page.tsx:77 | at least two digits whose value is the number, exactly two below 100 |
| TaskSwitcher.TwoDigitsIsPadStart | app/taskswitcher2/page.tsx:77 | the two-digit rendering is exactly the decimal text padded on the left with `0` to width two |
| TaskSwitcher.FormatTime | app/taskswitcher2/page.tsx:74-78 | the minutes and seconds, each as two or more digits, around one `:`; five characters below 6000 seconds |
| TaskSwitcher.FormatTimeInjective | app/taskswitcher2/page.tsx:74-78 | different times display differently |
| TaskSwitcher.RandomTime | app/taskswitcher2/page.tsx:26 | a whole number of minutes between `min` and `max`, in seconds |
| TaskSwitcher.Duration | app/taskswitcher2/page.tsx:28-45 | default gives 900 or 1800; green a whole minute in [1800, 2700]; red one in [900, 1500]; any other mode 1500 |
| TaskSwitcher.RecentWeek | app/taskswitcher2/page.tsx:16-19 | the loaded history is exactly the stored entries newer than one week |
| TaskSwitcher.Recent | app/taskswitcher2/page.tsx:130 | the last five entries at most, newest first |
| TaskSwitcher.RecentShowsMinutes | app/taskswitcher2/page.tsx:74-130 | a recorded duration displays as `mm:ss` |
| TaskSwitcher.PomodoroTimer.constructor | app/taskswitcher2/page.tsx:8-20 | an idle timer in the default mode with last week's history |
| TaskSwitcher.PomodoroTimer.StartTimer | app/taskswitcher2/page.tsx:28-46 | the timer runs in the given mode with that mode's duration; the history is untouched |
| TaskSwitcher.PomodoroTimer.CancelTimer | app/taskswitcher2/page.tsx:48-54 | a running timer records its mode and remaining time and stops at zero; an idle one is left alone |
| TaskSwitcher.PomodoroTimer.Tick | app/taskswitcher2/page.tsx:56-72 | a running timer counts down one second; at zero it stops and records a zero-length entry; an idle one is left alone |
| Timetable.Rows | app/timetable/page.tsx:52 | the text of the first n rows of the grid |
| Timetable.InitialSchedule | app/timetable/page.tsx:15-19 | three fresh, distinct rows of seven empty cells |
| Timetable.HandleCellChange | app/timetable/page.tsx:25-29 | a fresh outer array shares its rows with the old one; only the chosen cell changes, and the old grid shows the change too |
| Timetable.PlaceholderIndex | app/timetable/page.tsx:55 | the placeholder index is always a valid activity index |
| Timetable.Placeholder | app/timetable/page.tsx:55 | an empty cell always suggests one of the eight activities |
| Timetable.PlaceholderRotates | app/timetable/page.tsx:55 | the next cell along the grid suggests the next activity in the cycle |
| Timetable.EveryActivitySuggested | app/timetable/page.tsx:8-55 | every activity is the placeholder of some cell |
| UiChooser.SomeContains | app/ui-chooser/page.tsx:137-138 | `some` holds iff some item contains the term, ignoring case |
| UiChooser.Matches | app/ui-chooser/page.tsx:135-138 | the empty term matches every component |
| UiChooser.KeptComponents | app/ui-chooser/page.tsx:134-143 | the kept components come from the category and match; every matching one is kept |
| UiChooser.FilterCatalog | app/ui-chooser/page.tsx:129 | an empty term returns the catalog unchanged |
| UiChooser.FilteredFromCatalog | app/ui-chooser/page.tsx:144-146 | every category shown is a catalog category with at least one component, holding exactly its matching components |
| UiChooser.CatalogToFiltered | app/ui-chooser/page.tsx:144-146 | every catalog category with a matching component is shown |
| UiChooser.ShownIffMatches | app/ui-chooser/page.tsx:135-146 | a component is shown under its category iff its name, a use item or an avoid item contains the term |
| UiChooser.FilteredCategoriesAppend | app/ui-chooser/page.tsx:132 | categories are filtered one after the other, in catalog order |
| UiChooser.FilterComponents | app/ui-chooser/page.tsx:128-149 | the nested loops compute the filtered catalog |
| DocSearch.Excerpt | app/exemplardocumentationstyle/page.tsx:33 | at most the first hundred characters of the content, then `...` even after a short text |
| DocSearch.ToResult | app/exemplardocumentationstyle/page.tsx:30-34 | the result carries the key as id, the fields unchanged and the excerpt |
| DocSearch.DocMatches | app/exemplardocumentationstyle/page.tsx:25-29 | the empty query is contained in every document |
| DocSearch.Results | app/exemplardocumentationstyle/page.tsx:24-34 | every matching entry has its result |
| DocSearch.ResultsMatch | app/exemplardocumentationstyle/page.tsx:25-29 | every result comes from a matching entry |
| DocSearch.ResultsAppend | app/exemplardocumentationstyle/page.tsx:24-34 | results follow the entries' order |
| DocSearch.ResultsAll | app/exemplardocumentationstyle/page.tsx:24-34 | when every entry matches, one result per entry, in order |
| DocSearch.SearchDocs | app/exemplardocumentationstyle/page.tsx:21-35 | an empty query finds nothing; any other finds the matching entries |
| DocSearch.ToggleSection | app/exemplardocumentationstyle/page.tsx:116-121 | only the given section flips, and an absent one opens |
| Flags.Flip | app/exemplardocumentationstyle/page.tsx:117-120 | one key flips, an absent key turns on, the others keep their value |
| Flags.FlipTwice | app/data-view/page.tsx:11-16 | flipping a key twice leaves every key as it was |
| DataView.Truncate | app/data-view/page.tsx:18-21 | a text of at most n characters is unchanged; a longer one keeps a prefix and ends in `...`, n + 2 long for n >= 1 |
| DataView.CellKeyInjective | app/data-view/page.tsx:14-42 | different cells have different keys |
| DataView.CellKey | app/data-view/page.tsx:14 | the first `-` of a cell key ends the row number, and the rest is the column name |
| DataView.ToggleCell | app/data-view/page.tsx:11-16 | only the cell's key flips |
| DataView.ToggleCellOthers | app/data-view/page.tsx:11-16 | toggling one cell never changes another cell |
| DataView.CellText | app/data-view/page.tsx:42-53 | an expanded cell shows all its text; a collapsed one at most 52 characters, unchanged up to 50 |
| DataView.Columns | app/data-view/page.tsx:23-27 | no data shows the placeholder; otherwise the columns are the first record's keys in order |
| DataView.Keys | app/data-view/page.tsx:27 | the keys of a record, one per field, in order |
| Complexity.ElementScore | app/program-design-complexity/page.tsx:39 | the element penalty is never negative and is zero only at seven elements |
| Complexity.ElementScoreIsSquare | app/program-design-complexity/page.tsx:39 | the `Math.max(0, …)` guard never changes the square |
| Complexity.CalculateScores | app/program-design-complexity/page.tsx:37-47 | depth squared, element penalty, state times handlers, and their sum |
| Complexity.ScoresBoundedByTotal | app/program-design-complexity/page.tsx:37-47 | with no negative counts each score is between zero and the total |
| Complexity.ComplexityLevel | app/program-design-complexity/page.tsx:51-55 | Low below 50, Medium in [50, 100), High from 100 |
| Complexity.LevelColor | app/program-design-complexity/page.tsx:51-55 | green iff Low, yellow iff Medium, red iff High |
| Complexity.LevelMonotone | app/program-design-complexity/page.tsx:51-55 | a higher score never gets a lower level |
| Complexity.ComplexityData | app/program-design-complexity/page.tsx:21-26 | fifteen points for one to fifteen elements, each with nesting penalty e squared and total = penalty + load |
| Complexity.Point | app/program-design-complexity/page.tsx:21-26 | point i has i + 1 elements, nesting penalty (i + 1) squared, the load of i + 1 elements, and their sum as total; the page's `i - 6` form is the load's `e - 7` |
| Complexity.CognitiveLoad | app/program-design-complexity/page.tsx:24 | the load is never below the element count, and at least seven from seven elements on |
| Complexity.CognitiveLoadIncreasing | app/program-design-complexity/page.tsx:24 | the cognitive load rises with every element, by one across the switch at seven |
| Complexity.CurveIncreasing | app/program-design-complexity/page.tsx:21-26 | total complexity strictly increases along the curve |
| Complexity.Recommendations | app/program-design-complexity/page.tsx:157-184 | each alert shows iff its threshold is exceeded |
| Complexity.SampleAnalysis | app/program-design-complexity/page.tsx:11-184 | the sample scores 16, 25 and 40, 81 in all, Medium, with the element, line and state alerts |
| RandStuff.AddOption | app/randstuff/page.tsx:12-17 | a blank input does nothing; otherwise the trimmed text goes last and the input is cleared |
| RandStuff.RemoveOption | app/randstuff/page.tsx:19-22 | exactly the option at the index goes, one fewer, the rest in order |
| RandStuff.RandomIndex | app/randstuff/page.tsx:26 | the drawn index is valid |
| RandStuff.EveryIndexDrawable | app/randstuff/page.tsx:26 | every index can be drawn |
| RandStuff.SelectRandomOption | app/randstuff/page.tsx:24-29 | with no options nothing happens; otherwise the selection is one of the options |
| RandStuff.AddThenRemove | app/randstuff/page.tsx:12-22 | adding an option and removing the last restores the list |
| Seqs.Filter | app/q-database/page.tsx:54 | `filter` keeps exactly the elements that pass |
| Seqs.FilterAppend | app/q-database/page.tsx:167 | filtering keeps the relative order |
| Seqs.FilterDropsOne | app/daily-checklist/page.tsx:66 | a filter that fails only at one position removes exactly that position |
| Seqs.RemoveIndex | app/randstuff/page.tsx:20 | removing a valid index joins the parts before and after it; another index removes nothing |
| Seqs.UpdateAt | app/daily-checklist/page.tsx:57-59 | mapping at one valid index changes that element alone; another index changes nothing |
| Seqs.Reverse | app/taskswitcher2/page.tsx:130 | the reversal reads the list back to front |
| Lego.GroupSet.constructor | app/lego/page.tsx:188 | a new set is empty |
| Lego.GroupSet.Copy | app/lego/page.tsx:191 | the copy has the same members |
| Lego.GroupSet.Has | app/lego/page.tsx:192 | `has` answers membership |
| Lego.GroupSet.Add | app/lego/page.tsx:195 | `add` adds the key and nothing else |
| Lego.GroupSet.Delete | app/lego/page.tsx:193 | `delete` removes the key and nothing else |
| Lego.Toggled | app/lego/page.tsx:190-197 | a member leaves, a non-member joins, nothing else changes |
| Lego.ToggleTwice | app/lego/page.tsx:190-213 | toggling twice restores the set |
| Lego.ToggleGroup | app/lego/page.tsx:190-197 | a fresh set holds the toggled members and the previous set is not changed |
| Lego.IsOpen | app/lego/page.tsx:213 | a group shows open iff its key is in the set |

## Left out

- Rendering is not modelled: the JSX and SVG, the ReactFlow wiring, the `alert` error path, the dialogs, and the styles and status labels of each page. The one colour class computed by logic, the complexity level's, is modelled (`Complexity.LevelColor`).
- ParserSpec.IsNumeric: `isNaN(Number(token))` is modelled for decimal numerals only, with an optional sign and at most one point. Hexadecimal, exponents, `Infinity` and the other inputs `Number` accepts are not modelled.
- ParserFrame.BareAtomClassification: a literal keeps its token's text. The model does not normalise it the way `Number(token)` and then `String(value)` would (e.g. `007` shows as `7`).
- Text.ToLower: `toLowerCase` is ASCII only. No Unicode case mapping is modelled.
- ParserSpec.IsConstructorToken: `toUpperCase() === token[0]` is modelled for ASCII, so a letter is unchanged iff it is not `a` to `z`.
- Floating point is not modelled: the category diagram's circle layout and the curves of the metrics page. The argument offsets of the flow chart are integers (`FlowChartProperties.ArgXIsSourceOffset`).
- Storage is not modelled: `localStorage`, `JSON.parse` and `JSON.stringify`, the Firestore calls of the question database, and `lib/categoryPersistence.ts`. A stored value is a parameter, and a database call that may fail is the flag `ok`. Loading the question database is not modelled.
- Clocks and randomness are parameters: `Date.now()`, `Timestamp.now()` and `toDateString()` are `now` or `today`, and `Math.random()` is `r`.
- Timers, audio and intervals are not modelled. One run of the timer's interval effect is one call of `Tick`.
- DataView.Truncate: lengths are counted in characters (Unicode scalar values), not in the UTF-16 code units that `.length` and `substring` count. A text with characters outside the Basic Multilingual Plane is cut differently: 26 emoji are 52 code units, so the page cuts them to 49 units (the last one a lone surrogate) and `...`, while the model keeps them whole.
- DataView.CellText: the 50-character limit inherits the character count of `DataView.Truncate`, not UTF-16 code units.
- DocSearch.Excerpt: `slice(0, 100)` is modelled on characters, not UTF-16 code units, so outside the Basic Multilingual Plane the page's excerpt can be shorter than the model's or end in a lone surrogate.
- TaskSwitcher.RandomTime: `Math.random() * (max - min + 1) + min` is computed over exact reals; IEEE double rounding is not modelled. At r = 1 - 2^-52, the largest value `Math.random` returns in V8, the double sum rounds up to exactly max + 1 (46 for 30 to 45, 26 for 15 to 25), so the page can set (max + 1) minutes, one more than the proved bound.
- TaskSwitcher.Duration: the green bound 2700 and the red bound 1500 hold over reals only; through the rounding of `TaskSwitcher.RandomTime` the page can set 2760 and 1560 seconds at r = 1 - 2^-52.
- TaskSwitcher.PomodoroTimer.Valid: `time <= MaxDuration` inherits the same gap, so the page can show 46:00 for a mode that promises 30 to 45 minutes.
- DataView.CellText: a value is given already as its text. `String(value)` and `JSON.stringify(value, null, 2)` are not modelled, and neither is the `typeof` test of `truncate`.
- Timetable.HandleCellChange: requires the indices to be inside the grid, as the page only ever passes them. A JavaScript write outside the array, which grows it, is not modelled.
- Timetable.InitialSchedule: a schedule restored from storage is not modelled.
- TaskSwitcher.PomodoroTimer.constructor: no bound is assumed on the durations of the stored history. The bound `RecentShowsMinutes` needs holds for entries the timer records itself (`Valid`).
- UiChooser.FilterComponents: a JavaScript object is modelled as its list of entries in insertion order. Duplicate keys, which an object literal cannot have, are not excluded.
- DocSearch.Results: the catalog `DocData` is kept as data. No property of its particular texts is stated.
- The catalogue data of the UI guide and the Lego templates is not modelled, and neither are the static pages.
