# Wedding planner task board and seating chart, modelled in Dafny

This project models the logic of three parts of a wedding-planning web
application, with the database, the session and the page rendering taken out.

- **The task API** (`src/app/api/tasks/route.ts`).
  - Tasks are stored with a three-state status (`todo`, `in_progress`, `done`).
  - A task's description carries a metadata block `<!--meta:{...}-->` appended
    to its free text. The block holds priority, category, effort, impact, tags
    and a five-state display status (`backlog`, `planning`, `in_progress`,
    `review`, `completed`).
  - The model covers:
    - the codec that writes and reads the block;
    - the validator that sanitises client-supplied metadata;
    - the inference of a display status from the stored status and the due date;
    - the projection back onto the stored status;
    - what the `GET`, `POST` and `PATCH` handlers decide from the values the
      database and the request hand them.
- **The task board** (`src/app/tasks/page.tsx`).
  - The heuristics that fill in missing metadata: priority from the due
    date, category from keywords, effort from the word count, impact from
    priority, and tags.
  - Avatar initials and the search filter.
  - The columns by status, and the progress, momentum and runway scores.
  - The date windows (due this week, overdue, focus, upcoming).
  - The showcase task, which comes from an in-place sort of an array.
  - The per-category and per-assignee summaries, built by updating the entries
    of a `Map` one task at a time.
- **The seating chart** (`src/app/seating/page.tsx`): assigning a guest to a
  table, removing one, the capacity usage of a table, and the seated and
  available totals.

Dates are day numbers, and instants are integer milliseconds on the same
local axis. `JSON.parse` and `JSON.stringify` are parameters of the
functions that use them. Numbers are exact rationals (`real`).

One module per file:

| file | module | models |
|---|---|---|
| `base.dfy` | `Base` | `Option`, filtering, sums, de-duplication in insertion order |
| `text.dfy` | `Text` | `trim`, `indexOf`, `lastIndexOf`, `includes`, `split(/\s+/)`, ASCII case |
| `json.dfy` | `JsonValue` | JSON values, JavaScript truthiness, property reads |
| `statuses.dfy` | `Statuses` | the two status sets and `mapLuxToSupabaseStatus` |
| `metadata.dfy` | `Metadata` | `TaskMetadata` and `sanitizeMetadata` |
| `reconcile.dfy` | `Reconcile` | `luxStatusFromMetadataOrGuess` |
| `codec.dfy` | `Codec` | `parseTaskDescription`, `appendMetadataToDescription` |
| `tasks_api.dfy` | `TasksApi` | the `GET`, `POST` and `PATCH` handlers |
| `derive.dfy` | `Derive` | `mapApiTaskToLuxTask`, the `derive*` heuristics, `computeInitials` |
| `board.dfy` | `Board` | filter, columns, scores, date windows, showcase |
| `breakdown.dfy` | `Breakdown` | `categoryBreakdown` and `teamLoad` |
| `seating.dfy` | `Seating` | the seating chart |

A `PATCH` with metadata replaces the stored block with the sanitised incoming
metadata; nothing is merged (`TasksApi.PatchReplacesMetadata`).

## Model

| member | source | states |
|---|---|---|
| Text.Trim | src/app/api/tasks/route.ts:89 | the result has no white space at either end |
| Text.TrimAround | src/app/api/tasks/route.ts:81-83 | trimming any white space around an already trimmed text gives that text back |
| Text.TrimIdempotent | src/app/api/tasks/route.ts:81-83 | trimming twice is trimming once |
| Text.IndexOf | src/app/api/tasks/route.ts:66 | a found index is an occurrence at or after `from` with none between; `None` means no occurrence from `from` on |
| Text.LastIndexOf | src/app/api/tasks/route.ts:59 | a found index is an occurrence with none after it; `None` means the pattern does not occur |
| Text.SplitWhite | src/app/tasks/page.tsx:395 | at least one piece, and no piece holds white space; `WordCountStarts` counts its non-empty pieces |
| Text.SplitFirst | src/app/tasks/page.tsx:395-397 | there is one piece, the text itself, exactly when the text has no white space; otherwise the first piece ends at the first white space |
| Text.SplitLast | src/app/tasks/page.tsx:399 | the last piece is the suffix after the last white space |
| Text.SplitTrimmedEnds | src/app/tasks/page.tsx:395-399 | a non-empty trimmed text splits into non-empty first and last pieces |
| Text.WordCountStarts | src/app/tasks/page.tsx:453 | `split(/\s+/).filter(Boolean).length` is the number of word starts: characters that are not white space and begin the text or follow white space |
| Text.Lower | src/app/tasks/page.tsx:437 | same length; each character is lower-cased |
| Text.Upper | src/app/tasks/page.tsx:397 | same length; each character is upper-cased |
| Text.Decimal | src/app/tasks/page.tsx:492 | a non-empty string of digits, with no leading zero |
| Text.DecimalValue | src/app/tasks/page.tsx:492 | reading the numeral back gives the number |
| Text.DecimalInjective | src/app/tasks/page.tsx:492 | different numbers have different numerals |
| Text.IntText | src/app/tasks/page.tsx:492 | `${n}` for an integer: starts with `-` exactly for a negative number, and is all digits otherwise |
| Text.IntTextInjective | src/app/tasks/page.tsx:492 | different integers are written differently |
| Base.Dedup | src/app/api/tasks/route.ts:270-292 | an insertion-ordered set: no repeats, same members, first element kept first |
| Base.DedupSnoc | src/app/api/tasks/route.ts:276 | adding an element appends it only when it is new |
| Base.PartitionCounts | src/app/tasks/page.tsx:743-751 | when every element's key is among distinct keys, the per-key counts add up to the length |
| JsonValue.Get | src/app/api/tasks/route.ts:345-353 | a property read yields a value exactly when the value is an object that holds the key, and then the value stored under the key |
| Statuses.LuxFromJson | src/app/api/tasks/route.ts:133 | a status is recognised exactly when the value is the string naming it |
| Statuses.LuxFromName | src/app/api/tasks/route.ts:133 | every status name is recognised as that status |
| Statuses.MapLuxToSupabase | src/app/api/tasks/route.ts:135-147 | `completed` maps to `done`; `in_progress` and `review` map to `in_progress`; `backlog` and `planning` map to `todo` (each as an if-and-only-if) |
| Statuses.MapRawLuxToSupabase | src/app/api/tasks/route.ts:135-147 | on a raw value, `done` exactly for `"completed"`, `in_progress` exactly for `"in_progress"` or `"review"`, and `todo` for anything else |
| Metadata.PriorityFromJson | src/app/api/tasks/route.ts:159-161 | a priority is kept exactly when the value is one of the four literal strings |
| Metadata.PriorityFromName | src/app/api/tasks/route.ts:178 | every priority name is recognised as that priority |
| Metadata.StringsOf | src/app/api/tasks/route.ts:154-156 | the string items of the list, in their order and with their repetitions (as JSON, exactly the filtered list) |
| Metadata.StringsOfMembers | src/app/api/tasks/route.ts:154-156 | a string is kept exactly when it is an item |
| Metadata.FiniteFromJson | src/app/api/tasks/route.ts:163-170 | kept exactly when the value is a finite number, and then equal to it |
| Metadata.StringFromJson | src/app/api/tasks/route.ts:162 | kept exactly when the value is a string, and then equal to it |
| Metadata.Sanitize | src/app/api/tasks/route.ts:149-176 | a falsy or non-object input gives `{}`; every kept field is, in the input, a literal of the right kind with that value; kept tags are exactly the string items of an input array, in order |
| Metadata.SanitizeKeepsWellShaped | src/app/api/tasks/route.ts:149-176 | conversely, every well-shaped field of an object survives, and tags become the string items of the array |
| Metadata.ToJson | src/app/api/tasks/route.ts:90 | the serialised object holds exactly the defined fields of the record |
| Metadata.StringsOfStringsToJson | src/app/api/tasks/route.ts:154-156 | filtering a list of string items gives the strings back |
| Metadata.SanitizeToJson | src/app/api/tasks/route.ts:149-176 | sanitising the JSON form of any record gives the record back |
| Metadata.SanitizeIdempotent | src/app/api/tasks/route.ts:149-176 | sanitising is idempotent |
| Reconcile.LuxStatusFromMetadataOrGuess | src/app/api/tasks/route.ts:94-131 | an explicit `statusLux` wins; otherwise the guess maps back onto the stored status, except that an imminent `todo` shows as `review` |
| Reconcile.InferenceTable | src/app/api/tasks/route.ts:103-130 | the inference as if-and-only-ifs: `completed` iff `done`; for `in_progress`, `review` iff due within 2 days; for `todo`, `backlog` iff more than 21 days, `review` iff at most 2, `planning` otherwise or without a due date |
| Reconcile.GuessThenMap | src/app/api/tasks/route.ts:103-147 | a guess mapped back keeps `done` and `in_progress`; a `todo` comes back as `in_progress` exactly when due within 2 days |
| Reconcile.GuessThenMapStable | src/app/api/tasks/route.ts:103-147 | a second read-then-write cycle changes nothing |
| Reconcile.ExplicitStatusRoundTrip | src/app/api/tasks/route.ts:99-101 | with `statusLux` stored, reading gives it back whatever stored status it was projected to |
| Reconcile.ImminentTodoDoesNotRoundTrip | src/app/api/tasks/route.ts:120-127 | without `statusLux`, a `todo` due within 2 days does not survive a read-then-write cycle |
| Codec.ParseOrEmpty | src/app/api/tasks/route.ts:73-79 | a parse failure leaves `{}`; otherwise the parsed value |
| Codec.ParseTaskDescription | src/app/api/tasks/route.ts:54-70 | a null or empty description gives `""` and `{}`; one without the prefix marker is returned whole with `{}` |
| Codec.Extract | src/app/api/tasks/route.ts:81-83 | the clean text is trimmed |
| Codec.AppendMetadataToDescription | src/app/api/tasks/route.ts:88-92 | the prefix marker stands right after the trimmed text and the blank line |
| Codec.LastPrefixAt | src/app/api/tasks/route.ts:59 | a prefix marker followed by text without one is the last one |
| Codec.FirstSuffixAfter | src/app/api/tasks/route.ts:65-66 | the suffix marker after a block free of suffix markers is the first one after the prefix |
| Codec.DecodeAt | src/app/api/tasks/route.ts:59-85 | once the last prefix and the first suffix after it are found, decoding cuts out exactly that block |
| Codec.DecodeSplits | src/app/api/tasks/route.ts:59-85 | decoding `a + prefix + b + suffix + c`: the clean text is trim(trim(a) + " " + trim(c)), and the metadata is trimmed `b`, parsed |
| Codec.UnterminatedBlock | src/app/api/tasks/route.ts:65-70 | with no suffix marker after the last prefix marker, the description is returned whole with `{}` |
| Codec.RoundTrip | src/app/api/tasks/route.ts:54-92 | for any text, decoding an encoded description gives the trimmed text and the metadata, when the serialised metadata holds neither marker and parses back |
| Codec.RoundTripMetadata | src/app/api/tasks/route.ts:88-92 | sanitising the decoded block of an encoded description gives exactly the written metadata |
| TasksApi.ResolveWedding | src/app/api/tasks/route.ts:191-229 | a requested wedding is returned iff it was found and belongs to the user; a failed query is a 500, a missing or foreign wedding a 404 `Wedding not found`; without a request, the default query decides: found, 500 on failure, 404 `No weddings found` |
| TasksApi.Couple | src/app/api/tasks/route.ts:325-328 | both partner names joined by ` & ` when both are non-empty, the title otherwise |
| TasksApi.DisplayName | src/app/api/tasks/route.ts:262 | the full name, else the e-mail, else `Unnamed`; only a missing value is replaced |
| TasksApi.DueDelta | src/app/api/tasks/route.ts:107-112 | a delta exactly when there is a due date, and due date = today + delta |
| TasksApi.View | src/app/api/tasks/route.ts:250-267 | copies the row's fields; the assignee becomes `{id, full_name ?? email ?? 'Unnamed', email}`; the status shown is the inferred one (`InferenceTable` lists its cases): an explicit one, or a guess that maps back to the stored status |
| TasksApi.ProjectRow | src/app/api/tasks/route.ts:245-268 | every field as in `View`, with the decoded clean text and the sanitised block as description and metadata, and the status inferred from that metadata and the due date |
| TasksApi.ProjectWrittenRow | src/app/api/tasks/route.ts:245-268 | a row this API wrote reads back with its trimmed text, its metadata whole, and its stored display status |
| TasksApi.Present | src/app/api/tasks/route.ts:273-276 | keeps exactly the present, non-empty ids |
| TasksApi.AddPresent | src/app/api/tasks/route.ts:273-276 | adding ids one at a time to an insertion-ordered set yields the set of all of them |
| TasksApi.CollectParticipantIds | src/app/api/tasks/route.ts:270-292 | `participantIds` is the insertion-ordered set of organizer, assignees and clients |
| TasksApi.ParticipantIds | src/app/api/tasks/route.ts:270-292 | the organizer comes first, there are no repeats, and an id is included iff it is the organizer, a present assignee, or a present client (unless the client query failed) |
| TasksApi.Team | src/app/api/tasks/route.ts:309-314 | one member per user row, in order; the role defaults to `collaborator` only when missing |
| TasksApi.TextOrEmpty | src/app/api/tasks/route.ts:384 | a string description is kept; a missing or null one becomes `""` |
| TasksApi.ResolveDefault | src/app/api/tasks/route.ts:359-380 | a non-empty `weddingId` string is used, otherwise the default query's answer |
| TasksApi.CreateTask | src/app/api/tasks/route.ts:335-409 | a row is inserted iff signed in, with a non-empty string title, a resolved wedding and a string, null or absent description; 401 without a session; 400 `Title is required`; 500 `Failed to resolve wedding` on a failed lookup; 400 `No wedding available for creation` when there is none; it throws iff the description is of another type; the row holds the title, the resolved wedding, `dueDate ?? null`, the projection of `statusLux ?? 'planning'` (so `todo` by default), a string assignee id as sent, and the description with the sanitised block |
| TasksApi.Spread | src/app/api/tasks/route.ts:412 | keys of the stored object override the sent fields, and the other keys keep the sent values |
| TasksApi.ResponseMetadata | src/app/api/tasks/route.ts:411-413 | each field is read from the written block when the block has that key, and is the sent one otherwise; a block that is not an object leaves the sent metadata |
| TasksApi.ResponseOfRoundTrip | src/app/api/tasks/route.ts:411-413 | when the block reads back as sent, the answer is exactly the sent metadata |
| TasksApi.ResponseWithNothingSent | src/app/api/tasks/route.ts:494-495 | with no metadata sent, the answer is the stored metadata sanitised |
| TasksApi.WrittenView | src/app/api/tasks/route.ts:411-427 | the `POST`/`PATCH` answer: the row's fields, its clean text, the sent metadata under its block, and the status inferred from that metadata; a sent display status shows unless the block overrides it |
| TasksApi.WrittenViewOfOwnRow | src/app/api/tasks/route.ts:494-510 | when the row holds the block written from the sent metadata and it reads back, the answer equals what `GET` shows, with exactly the sent metadata |
| TasksApi.WrittenViewNothingSent | src/app/api/tasks/route.ts:494-496 | with no metadata sent, the answer equals what `GET` shows for the row |
| TasksApi.UpdateTask | src/app/api/tasks/route.ts:437-477 | 401; 400 `Task id is required` for a non-number id; a valid patch (something to update, and the task found when metadata was sent) is applied to that id; a status is written iff a truthy `statusLux` was sent; the description is rewritten iff truthy metadata was sent, to the old clean text plus a block of only the sent metadata; 404 if the task is missing; 400 `No updates provided` when neither was sent |
| TasksApi.PatchReplacesMetadata | src/app/api/tasks/route.ts:459-473 | after a metadata update, a read gives the old clean text and exactly the sent metadata: nothing is merged |
| Derive.Today | src/app/tasks/page.tsx:604 | the day an instant falls on starts at or before it and ends after it |
| Derive.Round | src/app/tasks/page.tsx:454 | `Math.round`: within half of the argument, halves rounding up |
| Derive.NormalizeDueDate | src/app/tasks/page.tsx:402-407 | the due date if present, otherwise today + 14 days |
| Derive.DerivePriority | src/app/tasks/page.tsx:409-430 | explicit wins; `completed` gives low; otherwise critical iff at most 2 days left, high iff 3 to 7, medium iff 8 to 21, low iff more |
| Derive.PriorityMonotone | src/app/tasks/page.tsx:418-429 | a later due date never raises the derived priority |
| Derive.FirstMatch | src/app/tasks/page.tsx:439-443 | the first matching rule from `i` on, or none matches |
| Derive.DeriveCategory | src/app/tasks/page.tsx:432-446 | a non-empty explicit category wins; otherwise `General` iff no rule matches, else the category of the first matching rule in table order |
| Derive.DeriveEffort | src/app/tasks/page.tsx:448-456 | explicit effort wins; a derived one is a whole number in [3, 13] |
| Derive.EffortBounds | src/app/tasks/page.tsx:453-454 | the derived effort is 3 iff fewer than 18 words, and 13 iff at least 333 words |
| Derive.EffortMonotone | src/app/tasks/page.tsx:453-454 | more words never mean less derived effort |
| Derive.DeriveImpact | src/app/tasks/page.tsx:458-473 | explicit impact wins; otherwise 9 for critical, 8 for high, 6 for medium and 4 for low |
| Derive.ImpactMonotone | src/app/tasks/page.tsx:463-471 | a higher priority never gives a lower derived impact |
| Derive.DeriveTags | src/app/tasks/page.tsx:475-481 | never empty; a non-empty explicit list wins; otherwise [category, `Critical Path` iff critical else `Momentum`] |
| Derive.MapApiTaskToLuxTask | src/app/tasks/page.tsx:482-507 | id `task-<id>`; copies the raw id, text, assignee id and metadata; status = `metadata.statusLux ?? statusLux`; assignee name or `Unassigned`; the due date, or today + 14 days; priority, category, effort, impact and tags are the heuristics' answers for this task |
| Derive.BoardIdsDistinct | src/app/tasks/page.tsx:492 | distinct API tasks get distinct board ids |
| Derive.BoardStatusIsApiStatus | src/app/tasks/page.tsx:484 | for a task the API built, the board shows the status the API inferred |
| Derive.ExplicitMetadataWins | src/app/tasks/page.tsx:482-507 | stored metadata that names every field is shown unchanged |
| Derive.ComputeInitials | src/app/tasks/page.tsx:391-400 | `??` for an empty name, otherwise at most two characters |
| Derive.InitialsOfOneWord | src/app/tasks/page.tsx:396-397 | a one-word name gives its first two characters upper-cased |
| Derive.LastWordStart | src/app/tasks/page.tsx:399 | in a trimmed text of several words, the last word is non-empty and starts right after the last white space |
| Derive.InitialsOfSeveralWords | src/app/tasks/page.tsx:399 | a name of several words gives the first letters of its first and last words, upper-cased |
| Board.FilteredTasks | src/app/tasks/page.tsx:611-633 | a task is kept iff it has the selected priority and (the trimmed search term is blank, or the task's joined, lower-cased text contains the lower-cased term) |
| Board.NoFilterKeepsAll | src/app/tasks/page.tsx:611-633 | all priorities plus a blank search keep the whole board in order |
| Board.Push | src/app/tasks/page.tsx:638 | the task joins the end of its status column; no other column changes |
| Board.GroupedPush | src/app/tasks/page.tsx:636-640 | pushing the next task keeps every column equal to the tasks so far of its status |
| Board.GroupByStatus | src/app/tasks/page.tsx:635-653 | every column is exactly the tasks of its status, in board order |
| Board.ColumnsPartition | src/app/tasks/page.tsx:635-653 | the column sizes add up to the number of tasks |
| Board.RoundedShare | src/app/tasks/page.tsx:658 | a rounded percentage of a part of a positive whole lies in [0, 100], and is 100 for the whole |
| Board.Percent | src/app/tasks/page.tsx:658 | 0 for a zero whole or a zero part; in [0, 100] for a part of the whole; 100 for the whole |
| Board.Progress | src/app/tasks/page.tsx:655-658 | in [0, 100] |
| Board.ProgressExtremes | src/app/tasks/page.tsx:655-658 | 100 when every task is completed, 0 when none is |
| Board.Momentum | src/app/tasks/page.tsx:665-667 | at most 100; 0 when the total effort is 0 |
| Board.Runway | src/app/tasks/page.tsx:668-675 | at most 100; 0 when the total effort is 0 |
| Board.EffortInSnoc | src/app/tasks/page.tsx:660-664 | one more task adds its effort to its own column only |
| Board.EffortPartition | src/app/tasks/page.tsx:660-664 | the column efforts add up to the total effort |
| Board.EffortInNonNegative | src/app/tasks/page.tsx:661-664 | a column's effort is non-negative when every effort is |
| Board.WeightedEfforts | src/app/tasks/page.tsx:660-675 | with non-negative efforts, both weighted efforts are non-negative and the runway's is at most the total |
| Board.ScoresNonNegative | src/app/tasks/page.tsx:665-675 | with non-negative efforts, momentum and runway are at least 0 |
| Board.RunwayWithinWhole | src/app/tasks/page.tsx:668-675 | with non-negative efforts, the runway cap never bites |
| Board.AllInReviewMomentum | src/app/tasks/page.tsx:665-667 | momentum's weighted share can exceed the whole: a board all in review scores exactly the cap |
| Board.DueThisWeek | src/app/tasks/page.tsx:677-688 | exactly the open tasks whose day starts within the next 7 days |
| Board.Overdue | src/app/tasks/page.tsx:690-696 | exactly the open tasks whose day started before now |
| Board.CriticalOpen | src/app/tasks/page.tsx:698-701 | exactly the open critical tasks |
| Board.OverdueNotDueThisWeek | src/app/tasks/page.tsx:677-696 | no task is both overdue and due this week |
| Board.DueTodayIsOverdue | src/app/tasks/page.tsx:690-696 | once the day has begun, an open task due today is overdue and not due this week |
| Board.InsertBy | src/app/tasks/page.tsx:723 | one more element, the same multiset plus it |
| Board.InsertBySorted | src/app/tasks/page.tsx:723 | insertion keeps a list sorted |
| Board.SortBy | src/app/tasks/page.tsx:723 | sorted by the key and a permutation of the input |
| Board.InsertByKeepsOrder | src/app/tasks/page.tsx:723 | insertion puts the element first among those with its key |
| Board.SortByStable | src/app/tasks/page.tsx:723 | the sort is stable: the elements with any one key keep their order |
| Board.Take | src/app/tasks/page.tsx:724 | `slice(0, n)`: a prefix of length min(n, length) |
| Board.SortedTake | src/app/tasks/page.tsx:723-724 | at most four, all selected, sorted, and all of them when at most four were selected |
| Board.SortedTakeSmallest | src/app/tasks/page.tsx:723-724 | nothing left out is due earlier than something kept |
| Board.FocusCandidates | src/app/tasks/page.tsx:717-722 | exactly the open tasks that are critical or due within 10 days |
| Board.FocusTasks | src/app/tasks/page.tsx:714-725 | min(4, number of candidates) tasks, sorted by due date; each is open and critical or due soon |
| Board.FocusTasksEarliest | src/app/tasks/page.tsx:714-725 | no qualifying task left off is due earlier than one on the list |
| Board.UpcomingCandidates | src/app/tasks/page.tsx:729 | exactly the open tasks whose day starts at or after now |
| Board.Upcoming | src/app/tasks/page.tsx:727-732 | min(4, number of candidates) tasks, sorted by due date; each is open and not yet due |
| Board.UpcomingEarliest | src/app/tasks/page.tsx:727-732 | no open, not-yet-due task left off is due earlier than one on the list |
| Board.Swap | src/app/tasks/page.tsx:705 | exchanges two entries, leaves the rest and keeps the multiset |
| Board.InsertingDone | src/app/tasks/page.tsx:705-710 | an insertion step that stops in order leaves the prefix sorted |
| Board.InsertAt | src/app/tasks/page.tsx:705-710 | one insertion step in place: the prefix through `i` is in showcase order, the array is a permutation of the old one, and the rest is unchanged |
| Board.SortForShowcase | src/app/tasks/page.tsx:705-710 | `open.sort(...)` in place: highest impact first, then highest effort, as a permutation |
| Board.ShowcaseTask | src/app/tasks/page.tsx:703-712 | `undefined` iff no task is open; otherwise an open task that ranks at least as high as every open task |
| Breakdown.StatsOf | src/app/tasks/page.tsx:743-751 | the entry of a group counts all its tasks, and active + completed = total |
| Breakdown.StatsOfCounts | src/app/tasks/page.tsx:743-751 | completed = the number of completed tasks; effort = the sum of efforts |
| Breakdown.KeysOf | src/app/tasks/page.tsx:744 | the key of every task, in order |
| Breakdown.NewKeyHasNoTasks | src/app/tasks/page.tsx:744 | no task seen so far has a key that was never met |
| Breakdown.EntryStep | src/app/tasks/page.tsx:744-750 | one more task changes only the entry of its own key, by counting it |
| Breakdown.KeyOrderFirstOccurrence | src/app/tasks/page.tsx:753 | the map's insertion order lists every key once, in order of first occurrence |
| Breakdown.TalliesKeys | src/app/tasks/page.tsx:743-751 | the map built task by task has an entry exactly for the keys met |
| Breakdown.TalliesEntry | src/app/tasks/page.tsx:743-751 | each entry of that map counts exactly the tasks with its key |
| Breakdown.Count | src/app/tasks/page.tsx:765-772 | the entry with one more task, its effort, and one more completed or active task |
| Breakdown.Tally | src/app/tasks/page.tsx:743-751 | the keys in first-occurrence order; an entry iff the key occurs; each entry is the counts of exactly the tasks with that key |
| Breakdown.TallyPartition | src/app/tasks/page.tsx:743-751 | the group sizes add up to the number of tasks |
| Breakdown.CategoryRowOf | src/app/tasks/page.tsx:753-757 | the row copies total, completed and effort; completed is at most total; the rate is the rounded percentage completed, in [0, 100], 0 for an empty group and 100 when all are completed |
| Breakdown.CategoryBreakdown | src/app/tasks/page.tsx:740-758 | one row per category in first-occurrence order, each the counts of exactly that category's tasks; the totals add up to the number of tasks |
| Breakdown.AssigneeKey | src/app/tasks/page.tsx:764 | `assigneeId ?? assignee` |
| Breakdown.TeamRowOf | src/app/tasks/page.tsx:776-780 | the row copies total, active, completed and effort; active + completed = total; the rate is the rounded percentage completed, in [0, 100], 0 for an empty group and 100 when all are completed |
| Breakdown.TeamLoad | src/app/tasks/page.tsx:760-781 | one row per assignee key in first-occurrence order, each the counts of exactly that assignee's tasks; the totals add up to the number of tasks |
| Seating.NotGuest | src/app/seating/page.tsx:82 | the test holds exactly for other guests |
| Seating.Without | src/app/seating/page.tsx:82 | the guest is gone, every other guest stays, and the list does not grow |
| Seating.AssignGuestToTable | src/app/seating/page.tsx:57-74 | same tables; the guest is appended to the target table when it has room; every other table is unchanged |
| Seating.AssignToFullOrMissing | src/app/seating/page.tsx:57-74 | a full or missing target table leaves the chart unchanged |
| Seating.AssignWithinCapacity | src/app/seating/page.tsx:57-74 | assigning keeps every table within capacity |
| Seating.AssignKeepsOldSeat | src/app/seating/page.tsx:61-64 | a guest moved to another table with room stays at the old table too |
| Seating.GuestSeatedTwice | src/app/seating/page.tsx:33-38 | on the page's four starting tables, assigning guest 1 (at Table 1) to Table 2 leaves it at both |
| Seating.MoveGuestToTable | src/app/seating/page.tsx:57-74 | corrected: with room at the target, the guest leaves every table and takes that seat; otherwise the chart is unchanged |
| Seating.MoveSeatsOnce | src/app/seating/page.tsx:57-74 | with unique ids, a moved guest sits at exactly one table, once |
| Seating.GuestMovedOnce | src/app/seating/page.tsx:33-38 | the same move, corrected, on the starting tables: guest 1 sits at Table 2 only, once |
| Seating.MoveWithinCapacity | src/app/seating/page.tsx:57-74 | moving keeps every table within capacity |
| Seating.RemoveGuestFromTable | src/app/seating/page.tsx:77-87 | same tables; every occurrence of the guest leaves the target table, the other guests stay; other tables are unchanged |
| Seating.RemoveWithinCapacity | src/app/seating/page.tsx:77-87 | removing keeps every table within capacity |
| Seating.RemoveAbsentGuest | src/app/seating/page.tsx:77-87 | removing a guest who is not seated there changes nothing |
| Seating.WithoutAbsent | src/app/seating/page.tsx:82 | filtering out an absent guest changes nothing |
| Seating.FindTable | src/app/seating/page.tsx:52-54 | the first table with the id, or none has it |
| Seating.GetTableCapacityUsage | src/app/seating/page.tsx:90-94 | `{0, 0}` for an unknown id; otherwise the guest count and capacity of the first table with the id |
| Seating.FreeSeatsNonNegative | src/app/seating/page.tsx:90-94 | on a chart within capacity, used is at most total |
| Seating.Seated | src/app/seating/page.tsx:271-273 | never negative |
| Seating.SeatedPlusAvailable | src/app/seating/page.tsx:271-285 | seated + available = the total capacity |
| Seating.AvailableNonNegative | src/app/seating/page.tsx:283-285 | on a chart within capacity, available is at least 0 |
| Seating.AssignTakesOneSeat | src/app/seating/page.tsx:57-74 | with unique ids, assigning raises the seated count by one iff the target table has room |

## Left out

- Sessions, the database and HTTP are not modelled. `auth()`, the queries, `NextResponse`, `request.json()` and the page's `fetch` are external. Their answers are parameters: a session id, `Lookup` results, and the parsed payload. Logging is dropped.
- `JSON.parse` and `JSON.stringify` are function parameters. The round trip is stated under the assumption that the serialised text holds neither marker and parses back. `JSON.stringify` does not escape `-->`, so this assumption is a real precondition.
- Dates are day numbers and instants are milliseconds on one local axis. Time zones, daylight saving, ISO parsing and formatting are not modelled. The API's `differenceInCalendarDays` becomes a day delta from a `today` parameter.
- Numbers are exact rationals. IEEE rounding of the 1.25, 0.45 and 0.7 weights and of `Math.round` on quotients is not modelled. Non-finite values exist only in `Number`, for `Number.isFinite` to reject.
- `trim` and `\s` use JavaScript's white-space set. Case mapping covers ASCII letters only. `computeInitials` uses the first UTF-16 unit as the first character.
- Board.ShowcaseTask: when several open tasks tie on impact and effort, which one `sort` puts first is not stated, only that the result ranks at least as high as every open task.
- Board.SortBy: `Array.prototype.sort` with a comparator on `getTime()` is modelled as a stable sort on the day number. Its being the engine's particular algorithm is not modelled.
- Rendering is not modelled: React state, hooks, the fallback data set, the error banner and every form on the pages. The seating page's guest list, drag selection and buttons are left out too.
- `timelineTasks`, `teamLookup`, `eventDate`, `suggestTheme` and `mapApiTeamToLuxTeam` on the task page are display helpers outside the modelled core.
- The other pages (dashboards, CRM, budget, vendors, calendar, guests, mood board, messages, documents, website, reports, payments, home) hold mock data and inline filters. `src/services/wedding-service.ts` and the UI components are thin wrappers. None of these is part of this model.
- `GET` asks the `users` table for the participant records. The answer is a parameter of `TasksApi.Team`, so which rows come back is not modelled.
- `POST` and `PATCH` run the insert or update query and read the written row back. Those queries are parameters. `TasksApi.WrittenView` states what they answer once the written row is known: the row's clean text, and `TasksApi.ResponseMetadata` of the sent metadata and the row's block, with the display status inferred from that. It agrees with `TasksApi.ProjectRow`, the `GET` answer, when the block reads back as sent (`TasksApi.WrittenViewOfOwnRow`) and when nothing was sent (`TasksApi.WrittenViewNothingSent`).
- The category summary's rows carry no `active` field, as in the source, although its entries are counted with the same `Stats` record as the team summary's.
- The `Map` of the two summaries is a `map` together with its keys in insertion order, which is what `Array.from(map.entries())` walks.

## Findings

| source | as written | input that shows it | evidently intended | confidence | as-written member | corrected member |
|---|---|---|---|---|---|---|
| src/app/seating/page.tsx:57-74 | `assignGuestToTable` builds `updatedTables`, the tables with the guest removed, and then never uses it. The guest is only appended to the target table. | the page's starting tables (Table 1 holds guests 1-4, Table 2 holds 5 and 6, all of 8 seats); assign guest 1 to table 2 → guest 1 is at Table 1 and Table 2 | a guest moved to a table with a free seat leaves every other table first, as the comment at line 60 says | high (not executed) | Seating.GuestSeatedTwice | Seating.MoveSeatsOnce |
