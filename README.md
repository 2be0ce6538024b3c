# Day planner parser, modelled in Dafny

The day planner is a small React application (`project/src/App.tsx`). It reads a
markdown checklist, either pasted or loaded from one or more files named
`YYYY-MM-DD-<anything>.md`, and shows the time-boxed entries in it. Each entry line has the form
`- [x] 09:00 - 10:00 [title](link)`. The lines below an entry line that start with `-`
are that entry's sub-tasks.

This project models the parsing core of the application and proves its properties:

- `EntryLine` recognises one entry line. It is a hand-written matcher for the fixed,
  unanchored regular expression of `parseTimeEntry`, and it builds the `TimeEntry` from
  the captures. The leftmost match wins. The optional `####` heading marker is consumed
  greedily. The link alternative takes the first `](` and then the first `)`, and this is
  proved to be the choice a backtracking engine makes. JavaScript's `||` decides the title.
- `DayPlanner` holds the line-by-line builder of `parseDayPlanner`, which is also the inner
  loop of `handleFileSelect`. It keeps one open entry and appends sub-task lines to it. It
  pushes the open entry when the next entry line arrives and at the end of the input. The
  loop is a method. It is proved equal to a segment-by-segment reading of the document.
- `Sorting` holds the stable descending sort that `Array.prototype.sort` performs with the
  comparator `(a, b) => key(b).localeCompare(key(a))`. It is an in-place insertion sort on an
  array. The sort is proved to order its output, to be a permutation of its input and to be stable.
- `FileBatch` holds `handleFileSelect`. It keeps the files whose names match
  `^\d{4}-\d{2}-\d{2}-.+\.md$` and sorts them in place newest first. It then parses each
  file with the date of its name and concatenates the results.
- `Grouping` holds the per-date groups (`groupedEntries`) and the dates sorted newest
  first (`sortedDates`).
- `Views` holds the button that cycles through the three views.
- `Text` holds the parts of the JavaScript string library the parser uses: `trim`,
  `startsWith`, `substring`, `split`, `join`, white space and line terminators as the
  regular expression sees them, and string order.
- `Planner` holds the `TimeEntry` record.

## Model

| member | source | states |
|---|---|---|
| `Text.TrimStart` | project/src/App.tsx:62-68 | leading part of `trim`: the result is a suffix of the input, everything removed is JavaScript white space, and the result does not start with white space |
| `Text.TrimEnd` | project/src/App.tsx:62-68 | trailing part of `trim`: the result is a prefix of the input, everything removed is white space, and the result does not end with white space |
| `Text.Substring` | project/src/App.tsx:68 | `substring(2)` is the suffix that drops the first two characters, and it is empty when the line is shorter |
| `Text.Split` | project/src/App.tsx:57 | `split('\n')` gives at least one piece, no piece contains the separator, and joining the pieces gives back the text |
| `Text.SplitJoin` | project/src/App.tsx:57 | the converse of `Split`'s round trip: splitting undoes joining when no piece holds the separator, so `Split` and `Join` are mutual inverses on such pieces |
| `Text.LexLessTotal` | project/src/App.tsx:93 | the string order used for `localeCompare` is total on different strings |
| `Text.NotLessTransitive` | project/src/App.tsx:93 | "not before" is transitive, which the descending sort relies on |
| `Planner.WithDate` | project/src/App.tsx:291-297 | the entries of one date: an entry is in it exactly when it is in the list and has that date |
| `Planner.WithDateConcat` | project/src/App.tsx:291-297 | taking one date's entries distributes over concatenation |
| `EntryLine.FindPrefix` | project/src/App.tsx:39-40 | the unanchored match starts at the leftmost position where the fixed part `- [m] HH:MM - HH:MM ` fits, and no match exists when no position fits |
| `EntryLine.HeadingLength` | project/src/App.tsx:39 | `(?:####\s*)?` is greedy: it takes `####` and all the white space after it, or nothing when the tail does not start with `####` |
| `EntryLine.FindLabelEnd` | project/src/App.tsx:39 | the first `](` after the `[`, found only if no line terminator comes before it |
| `EntryLine.FindUrlEnd` | project/src/App.tsx:39 | the first `)` after the `(`, found only if no line terminator comes before it |
| `EntryLine.FirstLabelEndDecides` | project/src/App.tsx:39 | every way the link can match can be cut back to the first `](`, so the shortest label is the first one |
| `EntryLine.MatchLink` | project/src/App.tsx:39 | the link alternative picks the shape with the shortest label and then the shortest url, or it fails when no shape exists |
| `EntryLine.RestOfLine` | project/src/App.tsx:39 | `(.*)` takes the longest prefix without a line terminator |
| `EntryLine.MatchEntry` | project/src/App.tsx:39-40 | `line.match(regex)` fails exactly when the fixed part fits nowhere; otherwise it gives the leftmost index, the marker and the two times |
| `EntryLine.ParseTimeEntry` | project/src/App.tsx:38-54 | null exactly when the pattern matches nowhere in the line; otherwise an entry with no sub-tasks, the given date and two `HH:MM` times |
| `EntryLine.ParseTimeEntryAt` | project/src/App.tsx:42-51 | for the leftmost match: `completed` iff the marker is `x`; both times are the captures; with a link the title is the label (`[](u)` gives title "") and the link is the url; otherwise the title is the rest of the line and the link is ""; the heading marker is never in the title |
| `EntryLine.TailCapturesRule` | project/src/App.tsx:39-48 | groups 4 and 5 hold the first link shape, or group 6 holds the rest of the line when no link shape exists |
| `EntryLine.RenderParse` | project/src/App.tsx:38-54 | for a `Renderable` entry (`HH:MM` times; no line break in title or link; with a link, no `]` in the title and no `)` in the link; without one, a title that starts neither with `[` nor with `####`), parsing the checklist line written for it gives back every field except the sub-tasks; other entries need not round-trip (a plain title `####x` is written as `... 10:00 ####x`, which reads back with the title `x`) |
| `DayPlanner.RunIsSegments` | project/src/App.tsx:61-74 | from any builder state, the loop pushes what it holds, then the open entry with the sub-tasks still to come, then one entry per later matching entry line |
| `DayPlanner.BuildIsDocument` | project/src/App.tsx:56-77 | the builder's output equals the segment reading of the document |
| `DayPlanner.ParseLines` | project/src/App.tsx:58-74 | the loop with `currentEntry` and `parsedEntries`, and the final flush, produces the document's segments |
| `DayPlanner.ParseDayPlanner` | project/src/App.tsx:56-77 | pasted text is split at `\n` and read with the date `today` |
| `DayPlanner.SegmentsFollowOpened` | project/src/App.tsx:61-74 | one entry per opened entry, in order, differing only in sub-tasks |
| `DayPlanner.OneEntryPerValidLine` | project/src/App.tsx:61-74 | exactly one entry per line whose trim starts with `- [` and that matches the pattern, in document order, the last one included |
| `DayPlanner.OpenedFromLines` | project/src/App.tsx:62-66 | an entry is opened only by a line whose trim starts with `- [`, and it is the entry `parseTimeEntry` builds from that line |
| `DayPlanner.EntriesDated` | project/src/App.tsx:66 | every entry carries the document's date and two `HH:MM` times |
| `DayPlanner.EntryLineCloses` | project/src/App.tsx:62-66 | every line whose trim starts with `- [`, valid or not, closes the open entry, so the text before it and the text from it on are read independently |
| `DayPlanner.FailedEntryLineOpensNothing` | project/src/App.tsx:62-66 | a `- [` line that fails the pattern leaves nothing open, so the sub-task lines after it are dropped |
| `DayPlanner.OrphanLineDropped` | project/src/App.tsx:67 | with nothing open, a line that is not an entry line adds nothing |
| `DayPlanner.SubTasksOfEntry` | project/src/App.tsx:67-68 | the sub-task lines after a matching entry line go to that entry in arrival order, until the next entry line or the end |
| `DayPlanner.SegmentsOfEntry` | project/src/App.tsx:67-68 | an entry line followed by non-entry lines forms one segment that gets their sub-task texts |
| `DayPlanner.SubTaskTextOf` | project/src/App.tsx:67-68 | a sub-task line is one whose trim starts with `-` but not with `- [`, and its text is the trim without its first two characters |
| `Sorting.InsertPermutation` | project/src/App.tsx:90-94 | inserting one element adds it and keeps all the others |
| `Sorting.SortDescSorted` | project/src/App.tsx:90-94 | the sort leaves the keys in descending order |
| `Sorting.SortDescPermutation` | project/src/App.tsx:90-94 | the sort is a permutation of its input |
| `Sorting.SortDescStable` | project/src/App.tsx:90-94 | the sort is stable: elements with the same key keep their input order |
| `Sorting.SortDescDistinct` | project/src/App.tsx:300 | sorting elements that are all different keeps them all different |
| `Sorting.FindSlot` | project/src/App.tsx:90-94 | scanning back from the new element finds where stable insertion puts it |
| `Sorting.InsertLast` | project/src/App.tsx:90-94 | one insertion step in place: the prefix becomes the stable insertion of the next element, and the rest is unchanged |
| `Sorting.SortByKeyDescending` | project/src/App.tsx:90-94 | the in-place sort leaves the array holding the stable descending sort of its old contents |
| `FileBatch.DateKeyOfPlannerName` | project/src/App.tsx:105 | for a matching name, `split('-').slice(0,3).join('-')` is its first ten characters |
| `FileBatch.PlannerFiles` | project/src/App.tsx:84-87 | a file is kept exactly when its name matches `^\d{4}-\d{2}-\d{2}-.+\.md$` |
| `FileBatch.HandleFileSelect` | project/src/App.tsx:79-126 | filter, in-place sort and parse loop produce the entries of the kept files, sorted, file after file |
| `FileBatch.ParseFiles` | project/src/App.tsx:98-123 | the loop appends each file's builder output, with the file's date, in array order |
| `FileBatch.FileEntriesDated` | project/src/App.tsx:105-112 | every entry of a file carries the date taken from the file's name |
| `FileBatch.BatchFromPlannerFiles` | project/src/App.tsx:84-105 | every batch entry comes from a file whose name matches and carries that name's first ten characters as its date |
| `FileBatch.PlannerFilesConcat` | project/src/App.tsx:84-87 | the name filter distributes over concatenation of selections |
| `FileBatch.NonPlannerFileIgnored` | project/src/App.tsx:84-87 | inserting a file whose name does not match anywhere in the selection (`before + [f] + after`) gives the same batch as leaving it out |
| `FileBatch.SingleFile` | project/src/App.tsx:98-123 | one matching file gives what the builder makes of its text with the date of its name |
| `FileBatch.BatchDatesDescending` | project/src/App.tsx:90-123 | the batch lists entries newest date first |
| `FileBatch.BatchDateInInputOrder` | project/src/App.tsx:90-123 | the entries of any one date are those of the files with that date, in their input order, each file in document order |
| `Grouping.DatesInOrder` | project/src/App.tsx:291-297 | the group keys: every entry's date is a key, and every key is some entry's date |
| `Grouping.DatesInOrderDistinct` | project/src/App.tsx:291-297 | no key occurs twice |
| `Grouping.GroupByDate` | project/src/App.tsx:291-297 | the `reduce` makes one group per key, and each group holds exactly the entries of its date in their order |
| `Grouping.SortDates` | project/src/App.tsx:300 | the keys sorted in place, newest first |
| `Grouping.SortedDatesStrictlyDescending` | project/src/App.tsx:300 | the sorted dates are exactly the entries' dates, each once, in strictly descending order |
| `Grouping.EntryInItsGroup` | project/src/App.tsx:291-297 | an entry is in the group of a date exactly when it has that date |
| `Views.IndexOf` | project/src/App.tsx:312 | `indexOf` gives the first position of the value, or -1 when it is absent |
| `Views.NextView` | project/src/App.tsx:310-314 | the next view is always one of the three views |
| `Views.ViewCycle` | project/src/App.tsx:310-314 | every click changes the view, and three clicks return to the start |
| `Views.UnknownViewResets` | project/src/App.tsx:312-313 | an unknown view (index -1) moves to `timeline` |

## Left out

- React state, hooks and effects, dark mode, scrolling (`scrollTimeline`), `formatDate`
  and all the JSX views are left out. They are presentation, not parsing.
- `await file.text()` and the `FileList` handling are left out. A file is a `(name,
  content)` pair. `setSelectedFiles` is not modelled.
- `new Date().toISOString().split('T')[0]` is left out because it reads the clock. The
  paste-mode date is the parameter `today`. The source reads the clock once per entry
  line, so a paste that crosses UTC midnight can give its entries two dates; the model
  assumes one date for the whole pass.
- `handleFileSelect` is `async` and can be started again before an earlier run finishes,
  so an older batch can overwrite a newer one through `setEntries`. Each operation is
  modelled as one synchronous run, and that interleaving is not modelled.
- `setEntries` is left out. Each operation returns the list it would store.
- `localeCompare` is modelled as code-point lexicographic order. The two agree on the
  fixed-width digit-and-dash dates that the batch sorts.
- `Array.prototype.sort` is modelled by a stable insertion sort. Every stable sort yields
  the same array, but the engine's sequence of comparator calls is not modelled.
- `currentEntry.subTasks.push` mutates the open entry in place. The model replaces the
  open entry by an updated value. This loses nothing, because the entry is pushed only
  when it is closed and is not changed after that.
- The JavaScript object used by `groupedEntries` is modelled as a map. Keys inherited
  from `Object.prototype` (such as `constructor`) and the enumeration order of
  integer-like keys are left out. Batch dates always have the form `YYYY-MM-DD`, and
  `sortedDates` is fully determined by the distinct keys whatever order they were added in.
- JavaScript strings are sequences of UTF-16 code units, while here a string is a
  sequence of Unicode scalar values. Characters outside the Basic Multilingual Plane count
  as one character here, where `substring(2)` and `.` would see two units.
- The white space that `trim` removes and `\s` matches is modelled as the full JavaScript
  set, not only ASCII.
