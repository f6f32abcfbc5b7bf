# Finance LLM: a verified model of its stateful and textual core

This Dafny project models the parts of the repository whose correctness needs an invariant rather
than a look at one function, and proves what those parts promise. `dafny verify dfyconfig.toml`
checks all of it.

- **Issue-report outbox** (`OutboxTable`, `OutboxRules`, `OutboxStore`, `OutboxRuns`, `OutboxFates`): the
  durable queue as a table with three transactions, a class whose methods are those transactions, and a
  state machine over every interleaving of workers, with what becomes of every event. A worker that
  crashes is one that never records its outcome; every step has its own time, so clocks need not agree.
  `Utf8` and `ByteBudget` model the byte limits of what is sent.
- **Metadata filters** (`Calendar`, `MetadataMatch`, `MentionOrder`, `Mentions`, `AliasRules`, `Overlay`):
  calendar ranges and their ISO strings, the resolver of the targets a question names, and the query that
  lays delta segments over a base build.
- **Data update jobs** (`CrawlWindows`, `JobStatus`, `JobRuns`, `JobFile`): dates grouped into crawl
  windows, and launchers and child processes sharing one status file under the launch lock. The file is a
  class whose methods are shown to be the steps of the runs.
- **Chat jobs and traces** (`ChatEvents`, `ChatRuns`, `ChatRegistry`, `NodeRuns`, `TraceHandle`): the
  process-wide registry of answer jobs with its bounded event list, again a class whose methods are shown
  to be the steps of the runs, the bounded collector of node runs, and the handle that seals it at a
  deadline.
- **Fixed snapshots** (`SnapshotProjection`, `SnapshotManifest`, `SnapshotPublication`,
  `SnapshotCreation`): projecting the chunks of selected reports out of several indexes into one, what the
  builder writes against what the opener checks, concurrent publication under a content-derived name, and
  from end to end what a published snapshot holds.
- **Text machines** (`Lines`, `TildeEscape`, `InlineCode`, `TildeFences`, `InlineRules`, `FenceRules`;
  `ReportLines`, `ReportText`, `ReportMessages`, `ReportRoundTrip`, `ReportFrames`, `ReportConversation`,
  `ReportPayload`, `ReportLayout`, `ReportAccidents`; `StudyBlocks`, `StudyPages`, `StudyLines`, `StudyShapes`,
  `StudyRuns`, `StudyRules`): tilde escaping around fences and code spans, the printer and
  parser of issue reports, and the Markdown translator of study texts.
- `Seqs` and `Text` hold what the others share: filtering, Python's white space, line breaks, `strip` and
  the order of strings.

The modules whose names end in `Rules`, `Shapes` or `Layout`, and the lemmas whose names end in `Words`, say
what the functions of the model compute without naming them: by the characters of a line, the words of a
printed text, the fields of a row.

Functions the model does not look into are parameters: redaction, Unicode case folding, date parsing,
JSON printing and parsing, hashing, and whether a process is alive. Where a proof needs something of
them it is a named predicate (`FoldsPartwise`, `IsJson`, `Sound`).

Some promises hold only under a condition. In each case the model keeps what the code does and states
exactly when the promise holds:

- A question and an answer fit 32 KiB together if and only if the question alone does; the code caps
  each at 16 KiB before, so its own callers are safe (`SelectedContentFits`, `BoundedPartsAreKept`).
- The collector loses a run if and only if a task starts again while it is still open, which replaces its
  open run (`NothingIsLostIff`, `RestartLosesARun`).
- A printed report is read back, all of id, time, version, thread, category, description and messages,
  if and only if four things hold (`ReportPayload.ReportRoundTrips`): its header values are trimmed
  lines, version and category not empty (`HeaderOk`); its description is clean, trimmed and free of
  section titles (`DescriptionOk`); it has a context, because an empty one prints as `Context: -`, at
  which the section reader does not stop; and its conversation is in order (`TalkOk`). The last depends
  on the text above the conversation. Where the parser finds no message in the description and the
  context and no JSON block left open there, it means that every message has a role, trimmed one-line
  fields, content that is clean, trimmed and without a line beginning a message or the guide, and
  metadata whose JSON breaks only at newlines (U+0085, U+2028 and U+2029 are printed raw and do break
  it). To a report without messages an open block does no harm. Where the parser does find a message
  above, the report comes back only by accident, if that message is itself the first of the conversation
  and the conversation happens to be read without it (`Copied`; `CopiedReportComesBack` is such a
  report). Without a marker line in description and context there are no accidents
  (`MarkerFreeRoundTrips`), and where every message fits they come down to one
  (`FittingReportRoundTrips`). A report's text lets every fitting conversation come back if and only if
  header and description are in order, there is a context, nothing in the text is taken for a message
  and no JSON block is left open in it (`SafeTexts`). A description that is a marker line and a role
  line breaks a report, whatever fitting conversation it has, if no line of the context is a field,
  block or marker line (`FeignedMessageBreaksTheReport`), which is so for single-line keys and values
  (`SingleEntriesArePlain`). Behind another context it need not break it: a report without messages then
  comes back if and only if what stands between the description and the conversation takes the role away
  again (`FeignedMessageAlone`, `ErasedRoleComesBack`).
- Consecutive month offsets abut, except that the current month, which ends at today, abuts on the next if
  and only if today is its last day (`MonthsAbut`, `CurrentMonthLeavesAGap`).

## Model

| member | source | states |
|---|---|---|
| OutboxTable.EnqueueKeepsTable | src/core/issue_report_outbox.py:570-661 | enqueueing keeps the table invariant (statuses, leases, unique ids, 1000 rows, 50 MiB, 128 KiB each); a failure rolls back its own expiry sweep; a success leaves no expired row, the report is in the table, and no live row is lost |
| OutboxTable.LeaseKeepsTable | src/core/issue_report_outbox.py:866-915 | leasing the query's first row keeps the invariant and leaves no expired row |
| OutboxTable.SomePick | src/core/issue_report_outbox.py:871-893 | whenever a row is due the query finds a first one |
| OutboxTable.FencedOut | src/core/issue_report_outbox.py:967-1018 | an outcome whose owner no longer holds the row leaves the table as it is |
| OutboxTable.RecordKeepsTable | src/core/issue_report_outbox.py:967-1018 | recording an outcome keeps the invariant, so a retried row has one to three attempts |
| OutboxTable.ReleasedLater | src/core/issue_report_outbox.py:1044-1050 | a retry is due between one second and one day after the lease |
| OutboxTable.PurgeFindsNothing | src/core/issue_report_outbox.py:988-995 | terminal rows are never left for the purge: the table holds none |
| OutboxRules.EnqueueRules | src/core/issue_report_outbox.py:570-661 | a report with an unexpired row is answered with that row; otherwise it is refused over 128 KiB, at 1000 live rows or over 50 MiB, or for a taken event id, in this order; otherwise one queued row is appended that holds the payload and its size, is due at once and expires after seven days |
| OutboxRules.NothingComesUp | src/core/issue_report_outbox.py:871-893 | nothing is leased exactly if no unexpired row waits with its time come or is being sent with its lease run out |
| OutboxRules.LeaseRules | src/core/issue_report_outbox.py:866-915 | the leased row is the oldest of those, one attempt later, with this owner and a lease of sixty seconds; every other unexpired row stays in its place |
| OutboxRules.RecordRules | src/core/issue_report_outbox.py:977-1014 | the outcome of a held row cuts it out after an acknowledgement, a rejection or a fourth attempt, and otherwise leaves it in its place as a retry without a lease, with the payload and the attempts it had |
| OutboxRules.RetryDelays | src/core/issue_report_outbox.py:695-706 | a retry waits as the server asks, or 30, 60 or 120 seconds and the jitter behind the first three attempts, in any case one second to one day |
| OutboxStore.Outbox.Enqueue | src/core/issue_report_outbox.py:570-661 | the transaction in place: its whole effect on the rows, unchanged on failure |
| OutboxStore.Outbox.LeaseNext | src/core/issue_report_outbox.py:866-915 | the sweep, then either nothing due and nothing leased, or exactly the query's first row leased in place |
| OutboxStore.Outbox.RecordOutcome | src/core/issue_report_outbox.py:967-1018 | the whole effect on the rows, nothing for a lost lease; a held row is gone if and only if the action is not to try again or four attempts were made, and otherwise the same event is in the table as a retry without a lease; the status is named by action and attempts |
| OutboxStore.Outbox.ProcessOnce | src/core/issue_report_outbox.py:664-721 | one undisturbed turn takes a due row of the old table and either removes it or makes it a later retry; every other live row is kept |
| OutboxStore.TurnRules | src/core/issue_report_outbox.py:664-721 | at the end of a turn the event is gone after an acknowledgement, a rejection or its fourth attempt, and otherwise waits as a retry with one more attempt and no lease |
| OutboxRuns.StepInv | src/core/issue_report_outbox.py:664-721 | every step of every worker keeps the invariant that links rows to the leases handed out |
| OutboxRuns.RunInv | src/core/issue_report_outbox.py:664-721 | the invariant holds in every interleaving of any number of workers |
| OutboxRuns.TableOkInEveryRun | src/core/issue_report_outbox.py:142-180 | in every run only queued, sending and retry rows exist, within all limits, lease fields set exactly when sending |
| OutboxRuns.RecordTakesEffectOnlyForTheHolder | src/core/issue_report_outbox.py:967-1018 | a recorded outcome changes the table if and only if its ticket still holds the row |
| OutboxRuns.ReclaimedTicketIsDead | src/core/issue_report_outbox.py:866-915 | once an event was leased again, no outcome of the earlier ticket changes anything |
| OutboxRuns.LeasesNeverOverlap | src/core/issue_report_outbox.py:871-893 | when a lease is granted, every earlier lease of its event is settled in the world it is granted in, or has run out |
| OutboxRuns.RemovedAtMostOnce | src/core/issue_report_outbox.py:988-995 | an outcome removes an event at most once and a removed event never comes back |
| OutboxRuns.LeaseBound | src/core/issue_report_outbox.py:895-907 | every event is leased at most four times plus once per reclaimed lease |
| OutboxRuns.GoneAfterFourPosts | src/core/issue_report_outbox.py:977-1014 | an event whose leases were never reclaimed is gone after four recorded outcomes |
| OutboxFates.EveryEventHasOneFate | src/core/issue_report_outbox.py:664-721 | in every run each inserted event is exactly once in exactly one place: in the table, removed by the outcome of a lease of its own that took effect, or swept by a step at or after its expiry |
| Utf8.DecodeEncode | src/core/issue_report_outbox.py:1569-1573 | decoding UTF-8 with errors ignored gives back every text that was encoded |
| Utf8.TruncateLongest | src/core/issue_report_outbox.py:1569-1573 | cutting at a byte limit and dropping a broken last sequence yields the longest prefix of whole code points that fits |
| ByteBudget.SelectedContentFits | src/core/issue_report_outbox.py:1527-1537 | question and answer together fit 32 KiB if and only if the question alone does |
| ByteBudget.BoundedPartsAreKept | src/core/issue_report_outbox.py:1527-1552 | a question and an answer already cut to 16 KiB each are left alone |
| ByteBudget.CompactTurnTrace | src/core/issue_report_outbox.py:1343-1425 | the kept turns are the longest suffix of the accepted ones whose JSON fits 48 KiB, and removal is reported exactly when something was left out |
| ByteBudget.LastEight | src/core/issue_report_outbox.py:1350-1352 | of more than eight turns the last eight count |
| ByteBudget.JsonListSizes | src/core/issue_report_outbox.py:1516-1524 | the bytes of a JSON list are those of its elements, one for every comma and two for the brackets |
| ByteBudget.FittingPrefixIsLongest | src/core/issue_report_outbox.py:1452-1460 | shortening a list from its end finds its longest prefix that fits |
| ByteBudget.FiltersAlwaysFit | src/core/issue_report_outbox.py:1428-1469 | after every turn of the loop the filters fit 2 KiB and use only allowed keys |
| ByteBudget.TakenFiltersStay | src/core/issue_report_outbox.py:1428-1469 | a filter once taken is never changed or dropped by a later one |
| ByteBudget.CompactFilters | src/core/issue_report_outbox.py:1428-1469 | the two loops compute that result, within the budget |
| ByteBudget.BoundedIsRedacted | src/core/issue_report_outbox.py:1540-1555 | a filter value is the longest beginning of its redacted text of at most 256 bytes |
| ByteBudget.FilterKeys | src/core/issue_report_outbox.py:63-75 | a text filter that fits is taken if and only if its key is one of the eleven allowed ones |
| ByteBudget.FirstEight | src/core/issue_report_outbox.py:1472-1491 | of a list only the first eight items count; nulls are dropped and the others bounded in order |
| Calendar.OrdinalOrder | src/core/metadata_filters.py:811-820 | day numbers order valid dates and are distinct |
| Calendar.OrdinalRoundTrip | src/core/metadata_filters.py:210-219 | dates and day numbers of years 1 to 9999 correspond one to one |
| Calendar.IsoOrder | src/core/metadata_filters.py:811-820 | comparing ISO strings of valid dates is comparing the dates |
| Calendar.IsoWords | src/core/metadata_filters.py:160-167 | a date prints as four digits of the year, two of the month and two of the day, with dashes between |
| Calendar.MonthRangeIs | src/core/metadata_filters.py:160-167 | a month's bounds fail exactly outside the calendar and for December 9999 |
| Calendar.MonthRangeIsTheMonth | src/core/metadata_filters.py:160-167 | a month's bounds hold exactly the valid dates of the month |
| Calendar.YearRangeIsTheYear | src/core/metadata_filters.py:170-172 | a year's bounds hold exactly the valid dates of the year |
| Calendar.QuarterRangeIsTheQuarter | src/core/metadata_filters.py:175-179 | a quarter's bounds hold exactly the valid dates of its three months |
| Calendar.WeekRangeIsTheWeek | src/core/metadata_filters.py:216-219 | a week offset holds exactly the seven days from that Monday |
| Calendar.CurrentWeekRangeIsMondayToToday | src/core/metadata_filters.py:210-213 | the current week runs from Monday to today |
| Calendar.MonthOffsetRangeIsTheMonth | src/core/metadata_filters.py:222-229 | a month offset is a whole month, except offset zero, which stops at today |
| Calendar.MonthsAbut | src/core/metadata_filters.py:222-229 | consecutive month offsets leave no gap and share no day if and only if the first is not the current month or today is its last day |
| Calendar.CurrentMonthLeavesAGap | src/core/metadata_filters.py:222-229 | on the first of May the current month and the next do not abut |
| Calendar.QuartersAbut | src/core/metadata_filters.py:175-179 | consecutive quarters abut |
| Calendar.YearsAbut | src/core/metadata_filters.py:170-172 | consecutive years abut |
| Calendar.WeeksAbut | src/core/metadata_filters.py:216-219 | consecutive week offsets abut |
| Calendar.StringsMeanTheRange | src/core/metadata_filters.py:811-820 | the ISO strings of a range accept exactly the dates of the range |
| MetadataMatch.MetadataMatches | src/core/metadata_filters.py:802-854 | the loop over the filters, whatever their types, accepts a document if and only if it satisfies every filter, and raises if and only if a list stands under a date key and all filters before it are satisfied |
| MetadataMatch.FilterWords | src/core/metadata_filters.py:802-854 | what every filter key asks and where the document has it: file names, the two ends of the report date, several report types or target names, and any other key by equality up to case and blanks |
| MetadataMatch.RangeFiltersSelectTheRange | src/core/metadata_filters.py:811-820 | a dated document passes the filters of a range if and only if its date lies in it |
| MetadataMatch.MonthFilterSelectsTheMonth | src/core/metadata_filters.py:222-229 | a month offset's filters select exactly the documents of that month, the current one up to today |
| MentionOrder.WalkIsLeftmostLongest | src/core/metadata_filters.py:127-139 | reading from the left and always taking the longest mention is leftmost-longest: disjoint, in order, each longest, none left uncovered |
| MentionOrder.LeftmostLongestIsWalk | src/core/metadata_filters.py:127-139 | leftmost-longest determines the accepted mentions |
| MentionOrder.GreedyIsLeftmostLongest | src/core/metadata_filters.py:127-139 | sorting all mentions and skipping covered ones reads leftmost-longest |
| MentionOrder.KeepUncovered | src/core/metadata_filters.py:129-139 | the loop with `occupied_until` keeps those mentions and returns their owners, each once |
| Mentions.AliasesAreSuffixes | src/core/metadata_filters.py:76-98 | every alias is a non-empty end of the whole normalized name; a shorter one has two characters and is no generic word |
| AliasRules.NormalizeRules | src/core/metadata_filters.py:52-53 | normalizing takes the blanks out of the folded text, wherever they stand, and nothing else |
| AliasRules.AliasRule | src/core/metadata_filters.py:76-98 | a text is an alias if and only if it is the non-empty whole normalized name, or has two characters, is no generic word, and is the normalized part behind the first white space that stays on one line, or the part of the normalized name behind an ASCII letter or digit that begins outside ASCII |
| AliasRules.WholeNameStands | src/core/metadata_filters.py:101-121 | the whole name of a target, taken from the stripped name, stands for it if and only if no other target claims it, or it is the full name of the unstripped one too and of no other claimant |
| AliasRules.FullNameNamesItsTarget | src/core/metadata_filters.py:101-139 | a question that is the full name of exactly one candidate, the same stripped and unstripped, returns that candidate alone |
| Mentions.CollectOwners | src/core/metadata_filters.py:103-107 | the alias table maps each alias to exactly the targets that claim it |
| Mentions.ResolveOwner | src/core/metadata_filters.py:109-121 | the only claimant of an alias, or of several the only one whose full normalized name it is, and none if there is neither |
| Mentions.Occurrences | src/core/metadata_filters.py:122-125 | repeated `find` yields every occurrence of an alias, overlapping ones too |
| Mentions.NamedTargetsAreLeftmostLongest | src/core/metadata_filters.py:101-139 | a list of mentions is leftmost-longest if and only if it is the reference reading, and then its owners are the result |
| Mentions.PickOrderedMentionedTargets | src/core/metadata_filters.py:101-139 | the whole resolver returns the owners of the leftmost-longest mentions of the aliases that `AliasRules.AliasRule` gives, without duplicates; it depends on the set of candidates only |
| Overlay.ReplayLeavesHeads | src/core/metadata_filters.py:655-675 | replaying actions in segment order leaves the untouched entries and the last upsert of every path |
| Overlay.ActiveRowsAreTheReplay | src/core/metadata_filters.py:631-688 | the ranked-heads query returns, as a multiset, the rows left by replaying the ready segments' actions in (sequence, id) order |
| Overlay.QueryIsTheReplay | src/core/metadata_filters.py:631-688 | for every database with one action per path and segment the query returns the rows left by replaying its ready segments, and the order of the actions within a segment is no matter |
| Overlay.VisibleRows | src/core/metadata_filters.py:631-688 | a row is returned if and only if it is of the base and no action in force has its path, or the action that decides its path puts it there; in force are the actions of ready segments of this snapshot and generation that did not fail, and the highest sequence decides, then the segment id |
| Overlay.ReplayKeepsPathsUnique | src/core/metadata_filters.py:631-688 | where the base has one report per path, so has every state of a replay |
| CrawlWindows.AscendingStrings | src/core/data_update_jobs.py:111-116 | sorting dates is sorting their ISO strings |
| CrawlWindows.GroupConsecutiveDates | src/core/data_update_jobs.py:119-134 | the ranges are separated by at least one absent day and cover exactly the dates |
| CrawlWindows.GroupingIsUnique | src/core/data_update_jobs.py:119-134 | no other separated ranges cover the same days |
| CrawlWindows.PlanCrawls | src/core/data_update_jobs.py:819-874 | the crawl windows visit exactly the requested days, each in one window, unless a date does not parse |
| CrawlWindows.WindowsCover | src/core/data_update_jobs.py:201-226 | the windows of target and lookback cover what their ranges cover |
| JobFile.StatusFile.Reserve | src/core/data_update_jobs.py:380-402 | admission if and only if the recorded job is not active; the file then takes the runs' reserving step, otherwise the refusing one, and the other step is impossible |
| JobFile.StatusFile.FailLaunch | src/core/data_update_jobs.py:419-430 | the file takes the runs' step of a process that cannot be started: it still names the job, and whatever is alive the next launch is admitted |
| JobFile.StatusFile.FinishLaunch | src/core/data_update_jobs.py:432-444 | the started status replaces only the launch's own reservation, otherwise nothing is written and the outcome says why; either way it is the runs' finishing step |
| JobFile.StatusFile.WriteJobStatus | src/core/data_update_jobs.py:237-259 | a child writes if and only if its job is the recorded one, which is the runs' writing step |
| JobRuns.RunInv | src/core/data_update_jobs.py:374-444 | in every interleaving of launchers and children, with crashes anywhere, the lock, the file and the history agree |
| JobRuns.HistoryInEveryRun | src/core/data_update_jobs.py:374-444 | the file's history is a sequence of blocks, one per admitted job: its reservation, at most one more write of its launcher, then its child's writes |
| JobRuns.IdChangesOnlyAtAdmission | src/core/data_update_jobs.py:391-402 | the recorded job id changes only at an admission |
| JobRuns.BlocksAreContiguous | src/core/data_update_jobs.py:237-259 | all writes of a job stand together |
| JobRuns.SupersededNeverWrites | src/core/data_update_jobs.py:252-257 | a superseded job never writes again |
| JobRuns.SupersededChildIsRefused | src/core/data_update_jobs.py:252-257 | in every run, once another job was written behind its own, a child changes neither file nor history, however long it lives |
| JobRuns.LauncherNeverSetsBack | src/core/data_update_jobs.py:432-444 | after a child's first write its launcher never writes, so a finished job is never put back to running by it |
| JobRuns.NothingAfterAFailedLaunch | src/core/data_update_jobs.py:419-430 | a failed launch is the last write of its job |
| JobRuns.FinishAlwaysHandsOver | src/core/data_update_jobs.py:432-444 | under the lock a started launch always finds its own reservation: neither other branch is reachable |
| JobRuns.AdmissionIsExclusive | src/core/data_update_jobs.py:381-385 | at most one launcher is inside, it either admits or refuses, and it refuses while the recorded job runs with a live pid |
| ChatRegistry.Registry.Record | apps/gui/chat_jobs.py:168-175 | the event comes last, before it exactly as many of the latest others as the limit allows, at most the limit in all; in every world it is the reporting step of the runs |
| ChatRegistry.Registry.Consume | apps/gui/chat_jobs.py:187-205 | one owner's events are taken in order, all others stay in order; it is the runs' consuming step |
| ChatRegistry.Registry.Admit | apps/gui/chat_jobs.py:557-565 | a job is refused exactly if it would wait behind another waiting one, and then no admitting step is possible; otherwise it is that step |
| ChatRegistry.Registry.Withdraw | apps/gui/chat_jobs.py:583-586 | in every world this is the runs' step of a job whose messages cannot be stored or whose thread cannot be started |
| ChatRegistry.Registry.ReleaseEngineQueue | apps/gui/chat_jobs.py:376-406 | progress is recorded only for a job that was waiting, which then waits no more; in every world it is the runs' releasing step |
| ChatRegistry.Registry.Leave | apps/gui/chat_jobs.py:540-543 | in every world this is the runs' last step of a job |
| ChatRegistry.PerformedStepsKeepTheRegistry | apps/gui/chat_jobs.py:168-205 | a registry whose methods take the steps of a run has at most one waiting job, which is running, and at most the limit of events |
| ChatRuns.RunInv | apps/gui/chat_jobs.py:359-634 | sets, events and reports keep their invariants in every interleaving of jobs, starters and readers |
| ChatRuns.SetsInEveryRun | apps/gui/chat_jobs.py:546-634 | at most one job waits, waiting jobs are running, and every way out removes a job from both sets |
| ChatRuns.EventsInEveryRun | apps/gui/chat_jobs.py:168-205 | every recorded event is exactly once in one of queued, evicted and delivered; events stay within the limit; only events older than all queued ones are evicted; owners receive theirs in order |
| ChatRuns.ReportsInEveryRun | apps/gui/chat_jobs.py:376-406 | a job records one progress event if it was released from the queue and at most one outcome |
| ChatRuns.EventsNameTheirOwner | apps/gui/chat_jobs.py:376-406 | every event of a run, queued, evicted or delivered, names the owner its job was admitted for, and progress is reported only of a job that waited |
| ChatRuns.ReadersAreSeparate | apps/gui/chat_jobs.py:187-205 | consuming leaves every other owner's events untouched |
| NodeRuns.ObservedInv | src/core/graph_observability.py:231-299 | after any stream, finished and open runs never exceed 256 and their sequence numbers are distinct |
| NodeRuns.FinishAlwaysRecords | src/core/graph_observability.py:264-299 | finishing an open run always records it: the bound on that path never discards one |
| NodeRuns.EveryStartIsAccountedFor | src/core/graph_observability.py:246-263 | admitted starts are finished, open, or replaced by a start of their own id |
| NodeRuns.NothingIsLostIff | src/core/graph_observability.py:246-263 | every admitted start is still there if and only if none replaced an open run |
| NodeRuns.RestartLosesARun | src/core/graph_observability.py:246-263 | two starts of one id lose the first run |
| NodeRuns.InvocationsAreNumbered | src/core/graph_observability.py:249-255 | the runs of a node are numbered in the order of their starts |
| NodeRuns.SnapshotIsUnique | src/core/graph_observability.py:301-338 | the snapshot of a state is determined |
| NodeRuns.BoundedWords | src/core/graph_observability.py:49-51 | a text counts without the white space around it and up to 160 characters |
| NodeRuns.PrefixWords | src/core/graph_observability.py:190-206 | every non-empty part of the namespace stands in front of the name, up to its last colon, with a colon behind it |
| NodeRuns.ReadingWords | src/core/graph_observability.py:231-282 | an event counts if it has an id, a name and a node, that of the whole path before that of the name; with an input and neither result nor error it begins a run, otherwise it ends one as failed, interrupted or completed |
| NodeRuns.NodeRunCollector.Observe | src/core/graph_observability.py:231-299 | one event in place has exactly the effect the stream functions describe |
| NodeRuns.NodeRunCollector.Snapshot | src/core/graph_observability.py:301-338 | in the order of the starts, every finished and open run once, nothing cut off |
| TraceHandle.SealedForGood | apps/gui/chat_jobs.py:107-129 | whatever the graph still does, the handle holds exactly what was observed before the first interrupt |
| TraceHandle.GraphTraceHandle.Observe | apps/gui/chat_jobs.py:116-119 | an event reaches the collector only while the handle is not sealed |
| TraceHandle.GraphTraceHandle.Interrupt | apps/gui/chat_jobs.py:121-129 | the handle is sealed and the snapshot is the collector's at that time |
| SnapshotProjection.ReconstructSelection | src/core/fixed_snapshot.py:701-729 | vectors fetched artifact by artifact come back in the order of the chunks, each its own; it fails exactly for inconsistent artifacts, unusable ids or no chunks |
| SnapshotProjection.SelectionIsWhole | src/core/fixed_snapshot.py:510-590 | a selection holds all chunks of its reports in uid order and nothing else, and every report has one |
| SnapshotProjection.SelectsReports | src/core/fixed_snapshot.py:542-590 | reports can be selected if and only if there are some, all of them are active and each has a chunk in the membership |
| SnapshotProjection.SelectsChunks | src/core/fixed_snapshot.py:510-542 | chunks can be selected if and only if all of them are in the membership and one of them leads to a report |
| SnapshotProjection.ProjectChunks | src/core/fixed_snapshot.py:341-352 | succeeds exactly if the chunks are projectable, with ids 1 to N and the source vectors under them |
| SnapshotProjection.ProjectionPreservesMeaning | src/core/fixed_snapshot.py:903-907 | for every projected chunk, projected id then subset index gives the vector of source id then source index |
| SnapshotProjection.Project | src/core/fixed_snapshot.py:338-362 | selection, vectors, membership and index together keep that meaning |
| SnapshotManifest.BuilderIsAccepted | src/core/fixed_snapshot.py:996-1136 | every check of the opener, foreign keys and row counts included, accepts the directory the builder wrote |
| SnapshotManifest.ManifestNames | src/core/fixed_snapshot.py:945-993 | the manifest names the contract, the source snapshot, its hash, generation and artifacts, the reports in order, the files it was written to, their hashes and the numbers of rows |
| SnapshotManifest.FilesHold | src/core/fixed_snapshot.py:813-942 | the files hold the vectors in the order of the chunks, the chunks under ids 1 to N, and their parents and reports |
| SnapshotManifest.OpensIff | src/core/fixed_snapshot.py:996-1136 | a directory opens if and only if its three files are there and every single check on manifest, index, foreign keys, runtime rows and membership passes |
| SnapshotManifest.SameRevisionSameDirectory | src/core/fixed_snapshot.py:1027-1060 | two directories that open with the same revision are equal file by file |
| SnapshotPublication.RunInv | src/core/fixed_snapshot.py:336-403 | in every interleaving of creators, stopped anywhere, every published directory was built to a plan of its name |
| SnapshotPublication.CheckPasses | src/core/fixed_snapshot.py:365-368 | the check before publication never fails |
| SnapshotPublication.PublishedOpens | src/core/fixed_snapshot.py:369-395 | every published directory opens with a revision equal to its name |
| SnapshotPublication.EveryReturnIsOwn | src/core/fixed_snapshot.py:370-395 | winners and losers of the rename return the snapshot of their own revision, equal to what they built |
| SnapshotPublication.PublishedStays | src/core/fixed_snapshot.py:376-388 | whatever steps follow, a published directory is never changed or removed |
| SnapshotCreation.MakePlan | src/core/fixed_snapshot.py:341-362 | succeeds exactly if the request can be selected and projected and the vectors are finite and of one dimension, and then has the selection's rows and source vectors |
| SnapshotCreation.ChunksAndReportsGiveOneRevision | src/core/fixed_snapshot.py:510-550 | a request by chunks and a request by the active reports they belong to give the same revision |
| SnapshotCreation.SnapshotHoldsTheSource | src/core/fixed_snapshot.py:336-403 | in every run, a snapshot made from a selection and returned holds exactly the chunks of its reports, and its index gives for each the vector the source gives |
| SnapshotCreation.PublishedHoldsTheSource | src/core/fixed_snapshot.py:376-395 | the same of the directory published under that revision, whoever published it |
| SnapshotCreation.PublishedKeepsTheRows | src/core/fixed_snapshot.py:813-942 | in the published catalog every selected chunk leads to its own parent and that to the chunk's report |
| TildeEscape.EscapeTwice | src/core/chat_ui_helpers.py:37-37 | substituting twice is substituting once |
| TildeEscape.UnchangedIffNoTarget | src/core/chat_ui_helpers.py:37-37 | reading from the left escapes exactly where the pattern, given by places, matches |
| TildeEscape.SubLeavesNoTarget | src/core/chat_ui_helpers.py:37-37 | after a substitution the pattern matches nowhere |
| InlineRules.NumberIsAhead | src/core/chat_ui_helpers.py:37-37 | blanks, at most one sign, blanks and a digit are a number ahead |
| InlineRules.AheadIsNumber | src/core/chat_ui_helpers.py:37-37 | and whatever is one has these parts |
| InlineRules.SubIsSubstituted | src/core/chat_ui_helpers.py:37-37 | the substitution escapes a tilde exactly where the pattern matches and copies everything else |
| InlineCode.EscapeOutsideInlineCode | src/core/chat_ui_helpers.py:57-65 | the loop over the code spans escapes between them and copies them |
| InlineRules.SearchFindsFirst | src/core/chat_ui_helpers.py:38-38 | a code span begins at the first backtick, with as many backticks as are closed later, and ends where they are first closed; without two backticks there is none |
| InlineRules.FirstSpanIsUnique | src/core/chat_ui_helpers.py:38-38 | these rules determine the span |
| InlineRules.EscapeAroundRules | src/core/chat_ui_helpers.py:57-65 | before the span that they determine the tildes of numbers are escaped, the span is copied, and behind it all begins anew |
| InlineCode.PiecesOfResult | src/core/chat_ui_helpers.py:57-65 | the result has the same code spans, and between them the escaped text |
| InlineCode.EscapeAroundTwice | src/core/chat_ui_helpers.py:57-65 | escaping around spans twice is escaping once |
| TildeFences.EscapeNumericTildes | src/core/chat_ui_helpers.py:68-98 | the loop over the lines renders the fenced lines and the escaped blocks between them, by the fence rules of `FenceRules` |
| FenceRules.OpeningLines | src/core/chat_ui_helpers.py:39-39 | a line opens a fence of n tildes if and only if it is at most three blanks, n tildes, three or more, and no tilde next |
| FenceRules.ClosingLines | src/core/chat_ui_helpers.py:83-88 | a line closes a fence of n tildes if and only if it opens one of as many or more and only white space follows |
| FenceRules.ProseAlone | src/core/chat_ui_helpers.py:68-98 | a text without an opening line is escaped as one block |
| FenceRules.ProseAboveFence | src/core/chat_ui_helpers.py:90-98 | the lines above the first opening line are escaped as one block, and what follows as a text of its own |
| FenceRules.FenceIsCopied | src/core/chat_ui_helpers.py:82-94 | a closed fence is copied, and the text behind it is escaped as a text of its own |
| FenceRules.UnclosedFenceIsCopied | src/core/chat_ui_helpers.py:82-98 | a fence that nothing closes is copied to the end of the text |
| Lines.LinesBegin | src/core/chat_ui_helpers.py:79-79 | a line ends with its first line break, a carriage return taking a newline along |
| TildeFences.ResultInserts | src/core/chat_ui_helpers.py:68-98 | the result is the text with single backslashes inserted before some of its tildes |
| TildeFences.BlocksOfResult | src/core/chat_ui_helpers.py:68-98 | the result has the same fenced lines, and its prose blocks are the escaped ones |
| TildeFences.EscapingTwice | src/core/chat_ui_helpers.py:68-98 | escaping twice is escaping once |
| TildeFences.NoTargetLeft | src/core/chat_ui_helpers.py:68-98 | outside fences and code spans of the result the pattern matches nowhere |
| ReportText.PrintIsTerminated | src/core/issue_report_store.py:64-120 | the final strip removes nothing |
| ReportLayout.HeaderIsPrinted | src/core/issue_report_store.py:75-84 | a report whose five header fields are single lines prints each on the line of its own label, in this order, between title and description |
| ReportLayout.HeaderWords | src/core/issue_report_store.py:75-84 | the printed header in words, whatever the fields hold |
| ReportLayout.ContextWords | src/core/issue_report_store.py:51-61 | an empty context prints as one line, another as a title and one entry each |
| ReportLayout.TalkWords | src/core/issue_report_store.py:92-107 | nine lines for each message in order: an empty one, the number, id, role, time, metadata and content, each behind its words |
| ReportLayout.GuideWords | src/core/issue_report_store.py:109-119 | the guide with the subject of the mail: version, report id and category |
| ReportLayout.PrintedWords | src/core/issue_report_store.py:64-120 | the printed text is header, description, context, conversation and guide, each line ended by a newline |
| ReportLayout.DecimalWords | src/core/issue_report_store.py:92-97 | message numbers are printed in decimal digits without a leading zero |
| ReportLines.SplitBegins | src/core/issue_report_store.py:123-127 | a text is split at its first line break, which is dropped, a carriage return with the newline behind it |
| ReportLines.SplitEnds | src/core/issue_report_store.py:123-127 | without a line break a text is one line, and none if it is empty |
| Text.LineBreaksAre | src/core/issue_report_store.py:123-127 | the characters a text is split at, each of them white space |
| Text.SpacesAre | src/core/issue_report_store.py:123-127 | the other characters stripping takes off |
| Text.StripIs | src/core/issue_report_store.py:123-127 | stripping takes off the white space in front and behind, and nothing else |
| ReportLayout.StopWords | src/core/issue_report_store.py:139-140 | a section ends at a line that ends with a colon and is one of the three titles |
| ReportLayout.KeyWords | src/core/issue_report_store.py:168-206 | the lines of a message that say something, each by its beginning |
| ReportLayout.OtherWords | src/core/issue_report_store.py:168-206 | every other line says nothing |
| ReportLayout.EndWords | src/core/issue_report_store.py:194-200 | content ends at the next message or the guide |
| ReportLayout.RoleAlone | src/core/issue_report_store.py:176-205 | a marker and a role line make a message whose other texts are empty, and none without a role |
| ReportText.LineValue | src/core/issue_report_store.py:123-127 | the stripped value of the first line with the prefix, or nothing |
| ReportText.SectionText | src/core/issue_report_store.py:130-142 | the stripped lines from the marker to the first stop line |
| ReportText.HeaderRoundTrip | src/core/issue_report_store.py:449-464 | the printed header is read back, each value as the field of its name, if and only if every value is one trimmed line and version and category are not empty |
| ReportLayout.MissingWords | src/core/issue_report_store.py:456-459 | a missing version is read as unknown and a missing category as other |
| ReportText.DescriptionRoundTrip | src/core/issue_report_store.py:130-142 | behind header values of one line each, the description is read back if and only if it is clean, trimmed, holds no stop line and a context follows |
| ReportMessages.ParseJsonBlock | src/core/issue_report_store.py:156-165 | the shortest beginning that parses, or everything |
| ReportMessages.ParseMessages | src/core/issue_report_store.py:168-206 | the nested loops compute the messages of the lines |
| ReportMessages.MessagesAreSound | src/core/issue_report_store.py:168-206 | whatever the text, parsed messages have a role, trimmed one-line fields and clean trimmed content |
| ReportRoundTrip.TalkRoundTrip | src/core/issue_report_store.py:168-206 | sound messages are read back if and only if no content holds a line that begins a message or the guide and no metadata prints with another line break than a newline |
| ReportRoundTrip.TalkWeighs | src/core/issue_report_store.py:168-206 | the content read is never longer than the content printed, and shorter by one for every message that does not fit, up to the first with illegible metadata |
| ReportFrames.FrameReads | src/core/issue_report_store.py:168-206 | lines above a message add the messages found in them, unless they leave a JSON block open, which swallows all below |
| ReportFrames.NothingBehind | src/core/issue_report_store.py:168-206 | lines without fields behind a text make no message out of none and none out of a message |
| ReportConversation.ConversationRoundTrip | src/core/issue_report_store.py:168-206 | behind header values of one line each and whatever description and context hold, the messages are read back if and only if nothing above is taken for a message or swallows one and every message fits, or they are copies of what is found above |
| ReportConversation.FittingMessagesAreNotCopied | src/core/issue_report_store.py:168-206 | fitting messages come back by accident only if a JSON block swallows the conversation and the text above holds all of it |
| ReportPayload.ParsePayload | src/core/issue_report_store.py:449-464 | the parts of a payload are read by the three readers from the same lines |
| ReportLayout.PayloadWords | src/core/issue_report_store.py:449-464 | id, time, version, thread and category are read behind their own words, with the fallbacks for version and category |
| ReportLayout.ComesBackByName | src/core/issue_report_store.py:449-464 | a report comes back if and only if every part that is read is the field of that name |
| ReportPayload.ReportRoundTrips | src/core/issue_report_store.py:64-120 | id, time, version, thread, category, description and messages of a printed report all come back, each by its name, if and only if header, description and conversation are in order and it has a context |
| ReportPayload.FittingReportRoundTrips | src/core/issue_report_store.py:64-120 | a report all of whose messages fit comes back if and only if header and description are in order, there is a context, and the text above is not taken for messages, or leaves a JSON block open and is taken for the whole conversation |
| ReportPayload.MarkerFreeRoundTrips | src/core/issue_report_store.py:64-120 | without a marker line in description and context, they come back if and only if header and description are in order, there is a context and every message fits |
| ReportPayload.SafeTexts | src/core/issue_report_store.py:168-206 | a report's text lets every fitting conversation come back if and only if header and description are in order, there is a context, nothing in the text is taken for a message and no JSON block is left open in it |
| ReportAccidents.CopiedReportComesBack | src/core/issue_report_store.py:168-206 | a report whose only message has no metadata and content comes back although its description is read as that very message, if the metadata block there holds no JSON |
| ReportAccidents.FeignedMessageBreaksTheReport | src/core/issue_report_store.py:168-206 | behind a context without field, block or marker lines, a report whose description is a marker line and a role line does not come back, whatever fitting conversation it has |
| ReportAccidents.SingleEntriesArePlain | src/core/issue_report_store.py:51-62 | a context of single-line keys and values has no field, block or marker lines |
| ReportAccidents.FeignedMessageAlone | src/core/issue_report_store.py:168-206 | behind any context, such a report without messages comes back if and only if reading on from the role line to the conversation leaves no message |
| ReportAccidents.ErasedRoleComesBack | src/core/issue_report_store.py:168-206 | it does with a context value whose second line is a role line without a role |
| StudyBlocks.BlocksCoverTheText | scripts/render_study_pdfs.py:82-186 | every line belongs to exactly one block, in order |
| StudyPages.PagesAreNested | scripts/render_study_pdfs.py:71-80 | every list and table is closed by its own end before any other block begins, and all are closed at the end |
| StudyPages.FeedKeeps | scripts/render_study_pdfs.py:82-186 | every turn of the loop keeps what has been and is still to be emitted equal to the page |
| StudyPages.StaysExclusive | scripts/render_study_pdfs.py:157-184 | an open list, a pending paragraph and open code exclude each other |
| StudyPages.BlocksAreMaximal | scripts/render_study_pdfs.py:157-184 | neighbouring lines of a paragraph or of a list of one kind are never split |
| StudyPages.MarkdownToHtml | scripts/render_study_pdfs.py:62-191 | the loop terminates and emits exactly the page of the blocks, well nested, open code closed at the end |
| StudyLines.MarkdownIsCoherent | scripts/render_study_pdfs.py:98-176 | the line tests of the translator fit together, so that every turn takes a line |
| StudyLines.TranslateStudyText | scripts/render_study_pdfs.py:62-191 | the translation with the translator's own line tests, whose page `StudyRules` gives run by run and by the shape of the lines |
| StudyShapes.KindIsMeaning | scripts/render_study_pdfs.py:84-185 | a line is taken for the kind it has the shape of: code fence, blank, rule, heading of one to four hashes, image, quotation, table head with separator, bulleted or numbered entry, each by its characters; and for paragraph text if and only if it has none of these |
| StudyRules.SingleLines | scripts/render_study_pdfs.py:105-135 | a blank line yields nothing; a rule, a heading and an image yield one piece with their parts |
| StudyRules.ListPage | scripts/render_study_pdfs.py:162-180 | neighbouring entries of one kind make one list of that kind with their texts in order, and the rest is a text of its own |
| StudyRules.ParagraphPage | scripts/render_study_pdfs.py:182-185 | neighbouring lines that look like nothing else make one paragraph of their stripped texts |
| StudyRules.QuotePage | scripts/render_study_pdfs.py:137-145 | neighbouring quoted lines make one quotation of the texts behind the sign, stripped |
| StudyRules.CodePage | scripts/render_study_pdfs.py:86-101 | the lines between two fences are code as they are, and behind the second the text begins anew |
| StudyRules.OpenCodePage | scripts/render_study_pdfs.py:187-191 | code that nothing ends runs to the end of the text |
| StudyRules.CellsOfLine | scripts/render_study_pdfs.py:150-154 | the cells of a table line are its texts between the bars, stripped, without the bars at both ends |
| StudyRules.TablePage | scripts/render_study_pdfs.py:147-160 | a head, a separator and the lines with a bar behind them make one table of the head's cells and theirs |

## Left out

- The delivery itself (HTTP posting, response parsing, the worker thread, WAL truncation): an outcome is an arbitrary input of a step.
- A retry delay that is not a number: `Retry-After` values are reals here.
- Redaction and sensitive patterns: an arbitrary function on strings.
- `outbox_status`, the installation identity and the case diagnostics: no state that interacts with the queue.
- Natural-language date expressions: only the bound computations behind them are modelled; the expressions can yield impossible dates or reversed ranges.
- `iter_weekdays` and `build_update_range`: the first swaps its end points when the start lies after today.
- The catalog without delta tables: its query is the base part of the overlay query alone.
- Update jobs started without a job id write the status file without the lock and without an owner; the runs contain only processes that carry a job id.
- The retry loops around the launch lock: a step under the lock simply waits until it is free.
- `repair_interrupted_chat_jobs`: it reads the running jobs before it scans the messages, so it can mark a job that starts in between.
- Times, durations and result keys of node runs: they decide nothing about which runs are kept.
- The graph manifest: bounded lists filled in order, without a property that spans operations.
- Python dictionaries are maps without an order: where the code iterates over one, the model visits the keys in any order.
- NodeRuns.NodeRunCollector.Snapshot: requires the invariant every stream establishes, so that the cut to 256 runs is shown never to cut.
- Source catalogs: the effective membership view and the joins from chunks over parents to reports are maps; reading profiles and artifact descriptors adds rows but no decision of its own.
- Paths, symbolic links and file permissions of snapshot directories, and files changed after publication by someone else.
- SnapshotManifest.BuilderIsAccepted: hashing is a function without collisions among the files, materials and mappings, and canonical JSON is part of that function; the page-level integrity check of a catalog file is not modelled.
- Vectors are sequences of bit patterns, finite or not by a parameter; the metric's name and the search itself are not modelled.
- A message without a key prints a dash for it; the model's messages have all four texts, and a key the parser does not find is an empty text.
- ReportConversation.ConversationRoundTrip: metadata are objects, and JSON is known by three facts (`IsJson`): what is printed parses to itself and no proper line prefix of it parses; text broken at another line break than a newline never parses, whatever follows; and no JSON has a line beginning with a message marker.
- ReportPayload.ReportRoundTrips: rests on the same facts about JSON; the context mapping is not among the parts compared.
- The fixed notes of the guide below a conversation are any single lines.
- Reading the context mapping back: only single-line values survive it, and nothing else depends on it.
- The inline markup within a block, HTML escaping and the layout of study pages: blocks carry their raw text.
