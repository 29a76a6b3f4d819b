# Lumina study planner — a Dafny model of its state logic

Lumina is a single-page study planner. It holds a curriculum (subjects, each
owning folders, each owning notes), a list of study events, a month calendar,
a dashboard and a chat assistant. All of its state lives in React component
state, plus three keys in the browser's local storage. The model covers the
operations that hold logic: the curriculum updates and persistence in
`App.tsx`; the expand/collapse and submit state of the curriculum list; the
calendar grid, its date keys, navigation and event form; the dashboard
derivations; and the chat transcript.

Modules, following the program's files:

- `Types` (`types.dfy`): the records of `types.ts`. It also defines the
  field-by-field merge `{ ...note, ...updates }` over a `NotePatch` that
  stands for `Partial<Note>`.
- `Seqs` (`seqs.dfy`): `filter`, `Array.from(new Set(...))` and `slice(0, n)`
  on sequences, plus an order-preserving subsequence relation.
- `Text` (`text.dfy`): the string built-ins used: `trim` (the exact
  ECMAScript whitespace set), `toLowerCase`, `includes`, `String(n)` and
  `padStart(2, '0')`.
- `Curriculum` (`curriculum.dfy`): the nested list updates of `App.tsx` as
  pure functions of the old subject list, the ownership invariant, and the
  search filter.
- `App` (`app.dfy`): the `App` component as a class. Each `useState` is a
  field and each handler is a method. Local storage is a map from key to
  stored value.
- `SubjectsList` (`subjects_list.dfy`): the curriculum list's local state as
  a class.
- `Calendar` (`calendar.dfy`): date keys, the day-cell loops, month
  navigation and the add-event modal.
- `Dashboard` (`dashboard.dfy`): recent notes, upcoming events, card counts
  and the ids handed to `onOpenSubject`.
- `Chat` (`chat.dfy`): the assistant's transcript as a class, with the
  send split at the awaited call.

Non-deterministic inputs are parameters:

- `Date.now()` ids and `new Date().toISOString()` timestamps are strings
  the caller supplies.
- `Math.floor(Math.random() * 5)` is a `PaletteIndex` in 0..4.
- `window.confirm` is a `confirmed` flag.
- The chat service's answer is a `ChatReply`.
- The month length, the weekday of the first day and `new Date(d).getTime()`
  come from the JavaScript `Date` object and are inputs. A month is
  `(year, month)` with `month` in 0..11. Month navigation carries the
  month over into the year as `new Date(y, m ± 1, 1)` does for years from
  100 on; the two-digit-year rule and the limits of the `Date` range are
  listed under "Left out".

Two places where the model follows the code rather than the prose around it:

- `CalendarView` hands `onAddEvent` a value with no `id` and no
  `subjectId` (`Calendar.EventDraft`), while `App.handleAddEvent` takes a
  full `StudyEvent`. The model keeps the two apart.
- The dashboard routes any id equal to `'calendar'` to the calendar. A
  subject whose id is `'calendar'` would therefore open the calendar rather
  than expand; `Dashboard.DashboardRouting` states this.

## Model

| member | source | states |
|---|---|---|
| Types.Merge | App.tsx:135 | each field of the merged note comes from the patch when the patch sets it, and from the old note otherwise |
| Seqs.Filter | components/SubjectsList.tsx:38 | `Array.prototype.filter` (also App.tsx lines 107, 125, 167 and CalendarView.tsx line 58): no longer than the input; a value is in the result iff it is in the input and passes; every result element passes |
| Seqs.FilterMultiplicity | components/SubjectsList.tsx:38 | the filter keeps every copy of a value that passes and no copy of one that fails |
| Seqs.FilterIsSubsequence | components/SubjectsList.tsx:38 | the filter keeps the input's order |
| Seqs.Dedup | components/SubjectsList.tsx:33 | `Array.from(new Set(...))`: duplicate-free, with exactly the input's values |
| Seqs.DedupFirstOccurrence | components/SubjectsList.tsx:33 | the values come out in the order of their first occurrences |
| Seqs.DedupIsSubsequence | components/SubjectsList.tsx:33 | the deduplicated list is an order-preserving subsequence of the input |
| Seqs.Take | components/Dashboard.tsx:15-16 | `slice(0, n)`: min(n, length) elements, the input's prefix of that length |
| Types.MergeIdempotent | App.tsx:135-139 | merging the same patch twice (in the note list or into the selected note) is merging it once; the empty patch changes nothing |
| Text.Trim | components/SubjectsList.tsx:46 | the result is the contiguous middle of the input; it neither starts nor ends with whitespace and only whitespace was cut off at either end |
| Text.NonBlankTrim | components/SubjectsList.tsx:46-47 | the guard `if (trimmed)`: nothing exactly when the input is all whitespace, otherwise the non-empty trimmed text |
| Text.TrimIdempotent | components/SubjectsList.tsx:46 | trimming twice is trimming once |
| Text.Lower | App.tsx:168-169 | same length, each character lower-cased (ASCII letters only) |
| Text.Includes | App.tsx:168-169 | a string only includes strings no longer than itself |
| Text.IncludesInfix | App.tsx:168-169 | a string includes every block it is made of |
| Text.LowerIdempotent | App.tsx:168 | lower-casing twice is lower-casing once |
| Text.NatToString | components/CalendarView.tsx:55-56 | `String(n)`: a non-empty digit string with no leading zero |
| Text.NatToStringValue | components/CalendarView.tsx:55-56 | `String(n)` is a digit string that reads back as `n` |
| Text.IntToStringInjective | components/CalendarView.tsx:57 | distinct years print as distinct strings |
| Text.IntToString | components/CalendarView.tsx:57 | non-empty; a leading minus sign exactly for negatives, every other character a digit |
| Text.PadStart2 | components/CalendarView.tsx:55-56 | a string of two or more characters is kept; a shorter one gets zeros in front up to two characters, ending in the original |
| Text.TwoDigitsValue | components/CalendarView.tsx:55-56 | `String(n).padStart(2, '0')` for `n < 100` is exactly two digits reading back as `n` |
| Curriculum.SeedWellFormed | App.tsx:29-51 | the initial curriculum satisfies the ownership invariant (folders name their subject, notes their folder) |
| Curriculum.AddSubject | App.tsx:95-103 | one subject appended: the old list is an unchanged prefix; the new one has the id, the name, no folders and a colour `bg-<c>-500` with `c` from the five-entry palette |
| Curriculum.DeleteSubject | App.tsx:105-109 | unconfirmed: no change; confirmed: no subject with the id remains, every other subject remains as often as it occurred, order is kept (subsequence) |
| Curriculum.DeleteUndoesAddSubject | App.tsx:95-109 | deleting a freshly added subject by its new id restores the old list |
| Curriculum.CreateFolder | App.tsx:111-119 | same number of subjects; subjects with another id unchanged; each subject with that id gets exactly one new empty folder at the end, naming the subject |
| Curriculum.CreateFolderUnknownSubject | App.tsx:118 | an unknown subject id leaves the curriculum unchanged |
| Curriculum.DeleteFolder | App.tsx:121-128 | unconfirmed: no change; confirmed: only the named subject loses folders with that id, its other folders keep their order, same-id folders elsewhere survive, and each surviving folder occurs as often as before |
| Curriculum.DeleteUndoesCreateFolder | App.tsx:111-128 | deleting a freshly created folder by its new id restores the curriculum |
| Curriculum.UpdateNote | App.tsx:130-137 | shape unchanged (subjects, folders, note positions); every note with the id is merged with the patch, every other note is unchanged |
| Curriculum.UpdateNoteIdempotent | App.tsx:130-137 | applying the same update twice equals applying it once, for every patch (a renaming patch leaves nothing for the second pass to match) |
| Curriculum.UpdateNoteKeepsTotal | App.tsx:130-137 | the total number of notes is unchanged |
| Curriculum.MergeKeepsFolderNoteCount | App.tsx:133-136 | the folder-level merge keeps the note count |
| Curriculum.NewNote | App.tsx:144-150 | the new note has the id, the folder id, title 'Untitled Note', empty content, the timestamp, and no summary or flashcards |
| Curriculum.CreateNote | App.tsx:152-155 | same shape; each folder with the id gets the new note appended, every other folder is unchanged |
| Curriculum.CreateNoteCount | App.tsx:152-155 | the note total grows by the number of folders with that id (by nothing for an unknown folder) |
| Curriculum.AppendNoteFolderCount | App.tsx:154 | per folder list, the count grows by the number of matching folders |
| Curriculum.AddSubjectKeepsWellFormed | App.tsx:95-103 | adding a subject keeps the ownership invariant |
| Curriculum.DeleteSubjectKeepsWellFormed | App.tsx:105-109 | deleting a subject keeps the ownership invariant |
| Curriculum.CreateFolderKeepsWellFormed | App.tsx:111-119 | creating a folder keeps the ownership invariant |
| Curriculum.DeleteFolderKeepsWellFormed | App.tsx:121-128 | deleting a folder keeps the ownership invariant |
| Curriculum.CreateNoteKeepsWellFormed | App.tsx:143-157 | creating a note keeps the ownership invariant |
| Curriculum.UpdateNoteKeepsWellFormed | App.tsx:130-137 | an update that does not set `folderId` keeps the ownership invariant |
| Curriculum.MatchesQuery | App.tsx:168-169 | the search test; the empty query matches every subject |
| Curriculum.FilterSubjects | App.tsx:167-170 | a subject is kept iff its lower-cased name or some folder's lower-cased name includes the lower-cased query, each kept subject as often as it occurs; the result is an order-preserving subsequence |
| Curriculum.EmptyQueryKeepsAll | App.tsx:167-170 | the empty query keeps every subject |
| Curriculum.QueryCaseInsensitive | App.tsx:167-170 | a query and its lower-cased form select the same subjects |
| App.RestoredUser | App.tsx:57-58 | an absent key keeps the current user; otherwise the result is the current user or the stored account |
| App.RestoredEvents | App.tsx:60-61 | an absent key keeps the current events; otherwise the result is the current list or the stored list |
| App.RestoredSettings | App.tsx:63-68 | an absent key keeps the current pair; otherwise the result is the current pair or the stored pair |
| App.RouteOf | App.tsx:237-240 | the literal 'calendar' and nothing else routes to the calendar; any other id expands that subject |
| App.PersistenceRoundTrips | App.tsx:56-93 | a stored user, settings pair or event list (the last written by handleAddEvent) is what startup restores; a removed user restores nothing; writing either key, or removing the user, leaves what the other two keys restore (all six cases) |
| App.Store.constructor | App.tsx:17-54 | the initial state: no user, dashboard tab, empty query, settings off, the seed curriculum (well formed), no selection, no events |
| App.Store.Startup | App.tsx:56-69 | user, events and settings are replaced by the stored values where present and kept otherwise |
| App.Store.Login | App.tsx:79-82 | the user is set and stored under 'lumina_user' |
| App.Store.Logout | App.tsx:84-87 | the user is cleared and the stored user removed |
| App.Store.SaveSettings | App.tsx:89-93 | the applied pair equals the pair stored under 'lumina_settings' |
| App.Store.AddEvent | App.tsx:159-165 | the event is appended and the stored list is the new in-memory list |
| App.Store.AddSubject | App.tsx:95-103 | the subject list becomes `Curriculum.AddSubject` of the old one; nothing else changes; the ownership invariant is kept |
| App.Store.DeleteSubject | App.tsx:105-109 | the subject list becomes `Curriculum.DeleteSubject` of the old one; nothing else changes; the invariant is kept |
| App.Store.CreateFolder | App.tsx:111-119 | the subject list becomes `Curriculum.CreateFolder` of the old one; nothing else changes; the invariant is kept |
| App.Store.DeleteFolder | App.tsx:121-128 | the subject list becomes `Curriculum.DeleteFolder` of the old one; nothing else changes; the invariant is kept |
| App.Store.UpdateNote | App.tsx:130-141 | the tree gets the merge; the note total is unchanged; the selected note gets the same merge iff its id matches |
| App.Store.CreateNote | App.tsx:143-157 | the tree gets the new note in every matching folder; the new note is selected even when no folder matched; the total grows by the matching-folder count |
| App.Store.SetSearchQuery | App.tsx:208 | the query is the typed text |
| App.Store.FilteredSubjects | App.tsx:167-170 | the subjects matching the current query, each as often as it occurs, in their order; every subject for the empty query |
| App.Store.OpenSubject | App.tsx:237-240 | 'calendar' switches to the calendar tab and leaves the expanded subject; any other id expands it and opens the curriculum tab |
| App.Store.NoteClick | App.tsx:236 | the clicked note is selected and the curriculum tab opened |
| SubjectsList.Toggle | components/SubjectsList.tsx:37-43 | membership of the id flips and no other id's membership changes; an absent id is appended at the end; a present id is removed (every copy) and the rest keep their order and their number of copies |
| SubjectsList.ToggleTwiceRestores | components/SubjectsList.tsx:37-43 | expanding and collapsing a collapsed id restores the list |
| SubjectsList.ToggleKeepsDistinct | components/SubjectsList.tsx:37-43 | toggling keeps a duplicate-free list duplicate-free |
| SubjectsList.ExternalExpand | components/SubjectsList.tsx:31-35 | no id or the empty id: no change; otherwise duplicate-free, containing the id, with exactly the old ids plus it, listed in the order of their first occurrences in the old list followed by the id |
| SubjectsList.ExternalExpandDistinct | components/SubjectsList.tsx:31-35 | on a duplicate-free list, the id is appended exactly when absent |
| SubjectsList.ListState.constructor | components/SubjectsList.tsx:25-29 | nothing expanded, empty inputs, no folder input open; the expanded lists are duplicate-free (`Valid`) |
| SubjectsList.ListState.ToggleSubject | components/SubjectsList.tsx:37-39 | the expanded subjects become their toggle; they stay duplicate-free |
| SubjectsList.ListState.ToggleFolder | components/SubjectsList.tsx:41-43 | the expanded folders become their toggle; they stay duplicate-free |
| SubjectsList.ListState.ExternalExpansion | components/SubjectsList.tsx:31-35 | the expanded subjects become the union with the external id; on a duplicate-free state a truthy id is appended exactly when absent, and the state stays duplicate-free |
| SubjectsList.ListState.EditSubjectName | components/SubjectsList.tsx:194 | the subject-name input is the typed text |
| SubjectsList.ListState.SubmitSubject | components/SubjectsList.tsx:45-51 | emits the trimmed name exactly when it is non-blank, and clears the input exactly then |
| SubjectsList.ListState.OpenFolderInput | components/SubjectsList.tsx:175 | the folder input opens under that subject |
| SubjectsList.ListState.EditFolderName | components/SubjectsList.tsx:164 | the folder-name input is the typed text |
| SubjectsList.ListState.SubmitFolder | components/SubjectsList.tsx:53-63 | blank: nothing changes and nothing is emitted; otherwise emits (subject, trimmed name), clears the name, closes the input and appends the subject to the expanded list only if absent, so it stays duplicate-free |
| SubjectsList.ListState.CancelFolderInput | components/SubjectsList.tsx:167-171 | Escape and cancel close the folder input and emit nothing |
| Calendar.DateKeyLayout | components/CalendarView.tsx:53-57 | the key is the year, then `-MM-DD` with two digits each that read back as month and day |
| Calendar.DateKeyInjective | components/CalendarView.tsx:53-57 | different (year, month, day) give different keys |
| Calendar.DateKey | components/CalendarView.tsx:54-57 | the key starts with the year as `String` prints it (the `-MM-DD` that follows is `DateKeyLayout`) |
| Calendar.DayEvents | components/CalendarView.tsx:58 | exactly the events whose date equals the key, each as many times as it occurs in the event list |
| Calendar.DayEventsInOrder | components/CalendarView.tsx:58 | a day's events keep their order in the event list |
| Calendar.EventOnOneDay | components/CalendarView.tsx:53-58 | an event appears in at most one day's cell of a month |
| Calendar.GridLayout | components/CalendarView.tsx:48-58 | a grid has `first + days` cells: blanks at 0..first-1, then the cell of day d at position first + d - 1 |
| Calendar.MonthGridLayout | components/CalendarView.tsx:48-58 | in a month's grid, position first + d - 1 holds day d with key `year-MM-DD` (month `getMonth()+1`) and that day's events |
| Calendar.BlanksLayout | components/CalendarView.tsx:48-51 | n leading blanks, the one at position i carrying index i |
| Calendar.BuildBlanks | components/CalendarView.tsx:48-51 | the first loop pushes exactly the `firstDayOfMonth` leading blanks, in index order |
| Calendar.BuildDayCell | components/CalendarView.tsx:53-58 | the cell of day d: its padded date key and the events on that key |
| Calendar.BuildDayCells | components/CalendarView.tsx:48-58 | both loops together build the month's grid: the blanks, then one cell per day 1..daysInMonth in order |
| Calendar.Normalize | components/CalendarView.tsx:27-28 | the normalised (year, month) denotes the same month count as the unnormalised pair |
| Calendar.PrevMonth | components/CalendarView.tsx:27 | one month earlier; January rolls back to December of the year before |
| Calendar.NextMonth | components/CalendarView.tsx:28 | one month later; December rolls over to January of the next year |
| Calendar.NavigationInverse | components/CalendarView.tsx:27-28 | going back then forward, or forward then back, returns to the same month |
| Calendar.SaveOutcome | components/CalendarView.tsx:37-46 | a draft exactly when the title is non-blank: trimmed title, the modal's date and the chosen type |
| Calendar.CalendarState.constructor | components/CalendarView.tsx:14-21 | today's month, modal closed, empty date and title, type 'study' |
| Calendar.CalendarState.Prev | components/CalendarView.tsx:27 | day 1 of the previous month |
| Calendar.CalendarState.Next | components/CalendarView.tsx:28 | day 1 of the next month |
| Calendar.CalendarState.OpenModal | components/CalendarView.tsx:30-35 | the date is set, the title reset to '', the type reset to 'study', the modal opened |
| Calendar.CalendarState.EditTitle | components/CalendarView.tsx:175 | the title is the typed text |
| Calendar.CalendarState.SelectType | components/CalendarView.tsx:186 | the type is the chosen one |
| Calendar.CalendarState.CloseModal | components/CalendarView.tsx:161 | the modal is closed (the header's X, and likewise the Cancel button) |
| Calendar.CalendarState.SaveEvent | components/CalendarView.tsx:37-46 | (the Save button or Enter in the title) emits the save outcome; the modal closes exactly when a draft is emitted |
| Calendar.CalendarState.Cells | components/CalendarView.tsx:48-58 | the grid of the month on display, as `BuildDayCells` states |
| Dashboard.FolderNotes | components/Dashboard.tsx:15 | a folder list holds as many notes in its traversal as its note count |
| Dashboard.AllNotes | components/Dashboard.tsx:15 | the traversal has exactly the curriculum's note total |
| Dashboard.AllNotesMembership | components/Dashboard.tsx:15 | a note is in the traversal iff some folder of some subject holds it |
| Dashboard.AllNotesAppend | components/Dashboard.tsx:15 | the traversal of two subject lists is the concatenation of their traversals |
| Dashboard.RecentNotes | components/Dashboard.tsx:15 | the first min(3, total notes) notes of the traversal |
| Dashboard.RecentNoteLocated | components/Dashboard.tsx:15 | each recent note lives in some folder of some subject |
| Dashboard.RecentNotesAfterAddSubject | components/Dashboard.tsx:15 | adding a subject (a new one has no folders) leaves the recent notes unchanged |
| Dashboard.SortByTime | components/Dashboard.tsx:16 | the sorted copy is a permutation of the events |
| Dashboard.SortByTimeSorted | components/Dashboard.tsx:16 | the sorted copy is ascending by time |
| Dashboard.InsertKeepsSorted | components/Dashboard.tsx:16 | inserting into a sorted list keeps it sorted |
| Dashboard.UpcomingEvents | components/Dashboard.tsx:16 | min(3, n) events, ascending, drawn from the events, and none of those left out is earlier than any shown |
| Dashboard.SumNoteCounts | components/Dashboard.tsx:51 | the left fold adds the folders' note counts to the accumulator |
| Dashboard.NoteCount | components/Dashboard.tsx:51 | a card's note count is the sum of its folders' note counts, i.e. the length of its note traversal |
| Dashboard.FolderCount | components/Dashboard.tsx:51 | a card that shows no folders shows no notes |
| Dashboard.NewSubjectCard | components/Dashboard.tsx:51 | a freshly added subject's card shows 0 folders and 0 notes |
| Dashboard.CreateFolderCard | components/Dashboard.tsx:51 | creating a folder adds one to the subject card's folder count and leaves its note count |
| Dashboard.SubjectCardTarget | components/Dashboard.tsx:44 | the id a card hands to onOpenSubject expands that subject, and routes to the calendar exactly when the subject's id is 'calendar' |
| Dashboard.DashboardRouting | components/Dashboard.tsx:131 | the planner button opens the calendar; a card's id equals the planner's exactly when the subject's id is 'calendar' |
| Chat.History | components/ChatAssistant.tsx:37-40 | one entry per message, same role, a single part with the message text |
| Chat.HistoryRoundTrip | components/ChatAssistant.tsx:37-40 | the transcript can be read back from the history unchanged |
| Chat.ContextSuffix | components/ChatAssistant.tsx:33-35 | empty exactly without a note; with one it starts with the context marker and ends with the note's content |
| Chat.Outgoing | components/ChatAssistant.tsx:33-42 | the user text is a prefix; it is the whole text iff there is no note; with a note the context marker follows and the title and the content occur |
| Chat.ReplyText | components/ChatAssistant.tsx:43-46 | never empty: the reply when non-empty, the fallback for an empty or missing reply, the connection-error text on failure |
| Chat.ChatSession.constructor | components/ChatAssistant.tsx:12-14 | empty transcript and input, not loading, and the alternation invariant holds |
| Chat.ChatSession.EditInput | components/ChatAssistant.tsx:13 | the input is the typed text |
| Chat.ChatSession.BeginSend | components/ChatAssistant.tsx:23-42 | blank input or a pending request: nothing changes; otherwise the input is cleared, one user message with the trimmed text is appended, loading is set, and the request carries the outgoing text and the history of the transcript as it was; the invariant is kept |
| Chat.ChatSession.CompleteSend | components/ChatAssistant.tsx:43-48 | exactly one model message with the reply text is appended and loading is cleared; the invariant is kept |

## Left out

- Rendering, styling, the dark-mode class toggle (App.tsx:71-77), the sidebar, scroll effects and the compact-view layout: presentation only.
- `components/NoteEditor.tsx`, `components/Settings.tsx`, `components/Auth.tsx`, `components/Sidebar.tsx` and `services/geminiService.ts` (summaries, flashcards, the AI study plan of the calendar and the chat service itself) are not part of this model; the chat service's answer is an input.
- JSON serialisation: local storage holds typed values, so a malformed or wrongly shaped stored string (and `JSON.parse` throwing) is not modelled; a value of the wrong kind is ignored.
- App.Store.Startup: models the restore as one atomic step on mount; the truthiness test `if (saved...)` on the raw string, and an empty stored string, are not distinguished from an absent key.
- Calendar.PrevMonth, Calendar.NextMonth: `new Date(y, m, 1)` reads a year argument in 0..99 as 1900 + y, so once the displayed year is in 0..99 (reached by going back from January of year 100) the next step in either direction lands in year 1900 + y or thereabouts in the browser, while the model moves by one month; dates beyond the `Date` range of ±8.64e15 ms become Invalid Date and are not modelled either.
- JavaScript `Date`: month lengths, the weekday of the first day, `toLocaleString` and `getTime` are inputs; dates that fail to parse (`NaN` times in the sort) are not modelled.
- Text.Lower: lower-cases ASCII letters only, because Unicode case mapping is not available; for non-ASCII names the search is stricter than the browser's.
- Dashboard.SortByTime: stability of `Array.prototype.sort` for events at the same time is not stated, although the insertion sort used keeps equal events in order.
- Types.NotePatch: a `Partial<Note>` field that is present but `undefined` (which overwrites with `undefined` in a spread) is not distinguished from an absent one.
- The `id` and `subjectId` a calendar draft lacks on its way to App.handleAddEvent: the model keeps the draft and the stored event as separate types and does not model the untyped hand-over between them.
- React effect timing: the external-expansion effect runs only when `externalExpandedId` changes; the model applies it on each call.
- Concurrency: each handler is one atomic step; the chat call is split into a begin and a complete step, and double clicks racing the state update are not modelled.
