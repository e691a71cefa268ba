# Wake protocol of the claim automation

This Dafny project models how an insurance claim email becomes a Trello card, a ledger row and a Gmail
label, and proves what the protocol keeps when calls fail, take effect and then fail, or the host kills
the process. Beside the protocol it models the string code the protocol rests on, the dashboard that
counts its results, and the nightly digest of its failures.

`dafny verify dfyconfig.toml` checks the whole project.

## How it is organised

- `Lease.dfy` (module `RunLease`): the run lease as a state machine over atomic table operations of any
  number of processes, with crashes, lost replies and a clock; `Worker` is the code that drives it, with
  arbitrary steps of the others in between.
- `ClaimData.dfy`, `Plans.dfy`: reading a claim reference, card names and the board search, and the
  decision about one email before anything is written.
- `Pipeline.dfy`: the mailbox run as functions over one world (labels, cards, ledger). Every external call
  reads from a script whether it succeeds, raises or kills the process, whether its effect landed all the
  same, and how long it took. `PipelineCode.dfy` is the same run as imperative code; every method is proved
  to compute the function.
- `Protocol.dfy`: the protocol of one email as a machine that makes one call at a time, and how a run fails.
- `Truth.dfy`, `Accounting.dfy`, `Resume.dfy`, `Timing.dfy`: the theorems about runs and whole histories of
  runs; `Witnesses.dfy` holds concrete runs in which a redo does not make a stop good. `Moments.dfy`: what
  holds after every killed run holds between any two calls. `Sessions.dfy`: processes that call only while
  they hold the lease leave the world of a serial history, whenever emails arrive. `OwnCards.dfy`: comments
  reach the cards of their own claims. `LabelNames.dfy`: labels by name and id. `Worker.dfy`: the wake
  around the run, its heartbeat history, and the totals of the dashboard.
- `Ledger.dfy`: the ledger's rows refine a map from references to records.
- `Calendar.dfy`, `IsoWeeks.dfy`, `Buckets.dfy`: the dashboard chart. `EntryNames.dfy`: the names in the
  attachment zip. `Stamps.dfy`, `DigestGroups.dfy`, `DigestBody.dfy`, `Fences.dfy`: the failure digest.
- `Collections.dfy`, `Decimal.dfy`: counting, filtering, the stable sort; printed numbers.

## Where the code does less than it says

- The lease excludes if and only if no live run stays longer than 600 s behind its stamp
  (`RunLease.ExclusionIsExact`): one microsecond more, and the overstayer and the process that took over its
  stale row are inside together, before anything is released. `RunLease.OverstayBreaksExclusion` shows what
  the unconditional delete adds: two processes that both keep to the 600 s meet.
  `Sessions.PunctualRunsAreSerial` gives a bound on one call's time under which none of this can happen.
- `backend/pipeline/entry.py:9-12` says that every redo path is idempotent or compensated. A run that stops
  between a write to Trello and the step that makes it known leaves a second card or a second comment after
  the redo: killed there, or failing at the label of a posted comment. `Resume.CrashThenRun` says exactly
  which stops are made good: those that satisfy `Resume.Safe`, a condition on the last call.
  `Witnesses.KilledAtCreate` and `Witnesses.StoppedAtComment` are runs in which it fails.
- A card answers to every reference its town or owner mentions, not only to its own
  (`ClaimData.CardAnswersTo`), and reading a reference back from a card name gives the town's first one if
  it has any (`ClaimData.CardNameRoundTrip`); `Witnesses.TownMentionsAnother` is such a card.
- Zip entry names can coincide when a file is literally called like a renamed one
  (`EntryNames.RenamedMeetsOriginal`); `EntryNames.DistinctUnlessTaken` says exactly when they do not.

## Model

| member | source | states |
|---|---|---|
| RunLease.Exclusion | backend/core/state_store.py:396-458 | In every interleaving of any number of processes, with crashes and lost replies, if each live run leaves within the staleness window of its stamp, at most one process is inside and the row is the one it wrote |
| RunLease.ExclusionIsExact | backend/core/state_store.py:67-69 | Holders that stay at most a given time exclude each other in every interleaving if and only if that time is the 600 s window or less |
| RunLease.ExclusiveStep | backend/core/state_store.py:396-458 | Each single table operation, crash or clock tick keeps exclusion, from a state in which nobody has overstayed |
| RunLease.InvAlways | backend/core/state_store.py:396-458 | With or without timely runs: stamps lie in the past, ETags are never reused, and a stale observation stays true while its ETag is current |
| RunLease.AtMostOneTakeover | backend/core/state_store.py:412-436 | Of all processes that race to replace one stale row, at most one ever succeeds |
| RunLease.OverstayBreaksExclusion | backend/core/state_store.py:439-444 | A concrete run in which one overstaying holder's unconditional delete lets two timely processes in |
| RunLease.DeadHolderNeverBlocks | backend/core/state_store.py:67-69 | With nobody else moving, the lease is acquired exactly when the row is absent or older than 600 s, and a refusal leaves the row as it was |
| RunLease.Worker.TryAcquire | backend/core/state_store.py:396-437 | Whatever others do in between, the outcome is exactly what the last call says: acquired if the row was created or a stale one replaced, and then inside with its own fresh row; busy if it was read fresh or the replace lost, and then it never touched the row; failed if a call raised or the row was read gone |
| RunLease.Worker.WithLease | backend/core/state_store.py:446-458 | The pairing of acquire and release for a body that ends, raises or dies: in the first two cases the last thing the process does is the delete, in the third it deletes nothing; an answered delete leaves no row, whichever way the body left; a busy exit releases nothing |
| ClaimData.ParseIsLeftmost | backend/pipeline/claim_data.py:37 | The slashed search returns the first position that matches, and nothing exactly when none does |
| ClaimData.ParseAcross | backend/pipeline/claim_data.py:37-91 | No slashed match crosses a character that is neither a digit nor a slash, so the text before it decides first |
| ClaimData.TokenIs | backend/pipeline/claim_data.py:38-41 | Of a token of word characters the slashless search accepts exactly those of ten or more digits that start with 20 |
| ClaimData.ReferenceIs | backend/pipeline/claim_data.py:87-98 | The slashed reference wins; without one only a caller that asks for it gets the slashless one, without its leading zeros, and none if it is all zeros |
| ClaimData.PaddedReadsAsSlashed | backend/pipeline/claim_data.py:38-98 | The zero-padded slashless form of a 20xx reference, delimited by non-word characters, reads as its slashed form |
| ClaimData.CardAnswersTo | backend/pipeline/trello_client.py:151-158 | A card name matches the search for a reference if and only if it is the card's own or the town or owner mentions it |
| ClaimData.CardAnswersOnlyToItself | backend/pipeline/trello_client.py:145-158 | Without a slash in town and owner the search matches exactly the card's own reference, so 2026/41 never hits 2026/417 |
| ClaimData.CardNameRoundTrip | backend/pipeline/claim_data.py:244-245 | Parsing a printed card name gives the claim's own reference back, unless the town itself holds one |
| Plans.MarkersMeanType | backend/pipeline/claim_data.py:55-78 | The marker guard of the run and the classification agree: exactly a subject with one of the four markers has a type or raises for its body |
| Plans.KindIsRead | backend/pipeline/claim_data.py:55-78 | Classification finds a kind exactly when the subject and body read as it: which marker wins, and the word or service behind it |
| Plans.PlanMeans | backend/pipeline/entry.py:281-318 | An email is turned away unasked unless its sender is allowed, a marker wins and a reference is found; the extractor's answer then makes it a comment with the notice, a card with its name and its announcing comment, or a rejection for a missing answer or a blank Gestión notice |
| Plans.PlansAreWellFormed | backend/pipeline/entry.py:269-325 | Every plan carries a proper reference, a card name that the board search matches for it, and the reference the log line shows |
| LabelNames.GmailLabels.GetOrCreateLabelId | backend/pipeline/gmail_client.py:152-166 | By names without regard to case and ids of the server: the id returned is that of a label spelled like the name, none is created if one exists, and forgetting names and ids gives the look-up of the run |
| PipelineCode.WakeRun.GetOrCreateLabel | backend/pipeline/gmail_client.py:152-166 | The cached look-up of the run computes its specification, call for call |
| PipelineCode.WakeRun.FindCardByClaimRef | backend/pipeline/trello_client.py:145-166 | The nested search loops compute the specified search, list by list and then the archive |
| PipelineCode.WakeRun.CreateFullCard | backend/pipeline/trello_client.py:101-138 | The compensated sequence of effects computes the specified unit; the original failure surfaces whether or not the delete works |
| PipelineCode.WakeRun.ProcessOne | backend/pipeline/entry.py:269-347 | The per-email sequence computes the specified one, call for call |
| PipelineCode.WakeRun.FetchPage | backend/pipeline/entry.py:178-189 | The fetch loop with its deadline computes the specified prefix of the page |
| PipelineCode.WakeRun.ProcessEmails | backend/pipeline/entry.py:192-231 | The email loop with its counters and its relabel outside the boundary computes the specified one |
| PipelineCode.WakeRun.ProcessMailbox | backend/pipeline/entry.py:160-257 | The whole run computes the function every theorem about runs speaks of |
| Truth.FindFinds | backend/pipeline/trello_client.py:145-166 | The search returns the card that stands first of all that match, list by list and then the archive, and none only if no card matches |
| Truth.CardUnit | backend/pipeline/trello_client.py:101-138 | The unit adds at most one card and changes nothing else; if it returns, the card is whole: on the configured list, with its name, its attachment and the comment of its plan |
| Truth.OneTrue | backend/pipeline/entry.py:269-347 | Processing one email only adds cards, notes and rows and keeps the ledger true; a success has earned its label and has done exactly what its result says: the plan's card with its comment and row, nothing, or the plan's comment on the first card of the claim |
| Protocol.EmailWalks | backend/pipeline/entry.py:269-347 | Every email is a walk of the protocol's machine, call by call with their arguments, however each call goes: a call that raises fails it, behind the created card by way of the compensating delete |
| Protocol.RunSurfaces | backend/pipeline/entry.py:192-257 | A call that raises inside an email, or at the gauge, never fails the run; any other fails it and nothing is called behind it; a run that returns has read the gauge last |
| Protocol.RunCalls | backend/pipeline/entry.py:173-257 | Outside its emails a run that returns calls exactly: label look-ups, the list, one fetch for each mail of a prefix of the page, one relabel for each mail of a prefix of these in date order, the gauge |
| Collections.SortSorted | backend/pipeline/entry.py:190-191 | The stable sort by date is ascending |
| Collections.SortPermutes | backend/pipeline/entry.py:190-191 | The sort loses and repeats no email |
| Collections.SortStable | backend/pipeline/entry.py:190-191 | Emails of one date stay in the order of the list |
| Truth.LoopTrue | backend/pipeline/entry.py:192-231 | However the loop ends, a prefix of the emails is relabelled, the rest is untouched, and the counters count the labels |
| Truth.RunTrue | backend/pipeline/entry.py:160-257 | However a run ends: the invariant is kept; of the fetched emails every one that has lost UNREAD is of an earlier date than every one that has not, or of the same date and listed before it; and a returned count equals the labels set |
| Truth.GaugeShowsRun | backend/pipeline/gmail_client.py:206-216 | The gauge shows 101 exactly when more than a page of emails is failed in the final state, their number otherwise, and the failures of its own run are among them |
| Truth.AlwaysTruthful | backend/pipeline/entry.py:9-12 | After any history of runs, arrivals and moved cards, with faults anywhere: every email has exactly one of the three labels, procesado on a card email means a ledger row of a completed card that still stands and is found by the search, procesado on a comment email means a posted comment |
| Truth.CommentFindsItsCard | backend/pipeline/entry.py:296-318 | Whenever the ledger is true, between two calls included, a comment for a claim of the ledger is posted unless a call fails, wherever the operator has put the card |
| Resume.CommentBehindItsCard | backend/pipeline/entry.py:190-231 | In an undisturbed run a comment email of a later date than the card email of its claim, however the page lists them, or for a claim with a row, ends as procesado with its comment on a card that answers to the claim |
| OwnCards.CommentsReachTheirClaim | backend/pipeline/trello_client.py:145-158 | After any history in which no card name mentions another claim, every procesado comment email has its comment on a card of its own claim: 2026/41 never reaches 2026/417 |
| OwnCards.CardsComeFromMails | backend/pipeline/entry.py:326-334 | After any history every card on the board has the reference and the name of a card email that arrived and, once announced, the comment of that email |
| OwnCards.PlansArePlain | backend/pipeline/claim_data.py:244-245 | A card email without a slash in town and owner has such a name |
| Moments.CutRun | backend/pipeline/entry.py:160-257 | A run killed at any of its calls makes up to there the calls of the run with the same effects, and nothing more |
| Moments.EveryMoment | backend/pipeline/entry.py:9-12 | Between any two calls of any run every email has exactly one label and no label or ledger row lies |
| Sessions.RunsAreSerial | backend/pipeline/entry.py:366-402 | In every interleaving of processes that call only while they hold the lease, and hold it within the window, and with emails arriving at any moment, the shared labels, board and ledger are at every moment those of a serial history of runs and arrivals |
| Sessions.PunctualRunsAreSerial | backend/pipeline/entry.py:366-402 | The same from the time of one call: each process inside for no longer than its own set-up, its own run and the release take |
| Sessions.TruthfulTogether | backend/pipeline/entry.py:9-12 | So no label lies and no email is lost at any moment, with any number of processes |
| Accounting.CardsAreAccountedFor | backend/pipeline/entry.py:319-347 | Exact conservation laws for every claim over every history: standing cards equal the row plus the calls that left one behind, announced cards equal the row plus the interruptions between comment and row |
| Accounting.CardsOfAClaim | backend/pipeline/trello_client.py:101-138 | Complete cards of a claim are at most its row plus those interruptions, partial ones at most the unit's interruptions without a landed delete; with nothing left behind there is one card per row and none besides |
| Resume.SmoothRun | backend/pipeline/entry.py:160-257 | A run whose calls succeed does what the reference says turn by turn; one whose last call raises inside an email isolates that email, does the ones before it and goes on behind it as the reference does; one that is killed or fails elsewhere stops as described, up to the email it stopped in |
| Resume.RaisedMailFails | backend/pipeline/entry.py:204-226 | The email in which a call raises ends as failed |
| Resume.DamageLasts | backend/pipeline/entry.py:9-12 | An email stopped between a Trello write and its record never heals: redoing it adds a second card or comment |
| Resume.CrashThenRun | backend/pipeline/entry.py:9-12 | A run that is killed, or fails outside the per-email boundary, followed by an undisturbed one ends with the labels, board and ledger of one undisturbed run if and only if it stopped at a safe call |
| Resume.StopsThenRun | backend/pipeline/entry.py:9-12 | Any number of runs that stop at safe calls, and then an undisturbed one, end with the labels, board and ledger of one undisturbed run |
| Witnesses.KilledAtCreate | backend/pipeline/trello_client.py:101-113 | A concrete run killed as its card is created, whose redo ends in another world than an undisturbed run |
| Witnesses.StoppedAtComment | backend/pipeline/entry.py:227-231 | The same for a run killed as its comment is posted and for one that fails at the label of that comment |
| Witnesses.TownMentionsAnother | backend/pipeline/claim_data.py:244-245 | A concrete card name that the search finds for another claim and that reads as that claim |
| Resume.DrainBound | backend/pipeline/gmail_client.py:34-131 | With nothing arriving, k undisturbed runs leave exactly max(0, n - 100k) of n unread emails |
| Timing.Request | backend/pipeline/trello_client.py:195-223 | The retry loop returns the first answer that is not a 429 or the third, after at most two back-offs |
| Timing.EmailTime | backend/pipeline/entry.py:269-347 | One email makes at most a fixed number of logged calls, whatever fails, and takes at most their time |
| Timing.RunTime | backend/pipeline/entry.py:173-257 | A run overshoots its deadline by at most one email and one call |
| Timing.RunFitsLease | backend/pipeline/entry.py:366-402 | From the time of one call: set-up, run and release fit into the staleness window |
| Timing.RunsExclude | backend/core/state_store.py:67-69 | Processes exclude each other in every interleaving if each one's stay is at most that of some set-up, mailbox run and release whose calls keep to a time that fits into 600 s |
| Worker.KeysReverseTime | backend/core/state_store.py:260-261 | The keys have 20 digits; those of two moments are ordered as strings exactly against time, and equal only for equal moments |
| Worker.ScanIsNewestFirst | backend/core/state_store.py:260-275 | An ascending scan of the keys is a newest-first scan, and the other way round |
| Worker.StateStore.WriteHeartbeat | backend/core/state_store.py:244-282 | The dual write: last run replaced if it landed, history row only after it, a failed append harmless; the history stays newest first |
| Worker.StateStore.HistoryTotals | backend/core/state_store.py:362-379 | One scan computes the two sums of the counts, absent ones as nothing, and the number of rows of failed runs |
| Worker.StateStore.ListErrorRuns | backend/core/state_store.py:381-394 | Exactly the rows whose failed count is above zero, in order, and they add up to the failed total |
| Worker.ExecuteWake | backend/app/worker.py:64-114 | One heartbeat with the status of its end for every wake that lives to write one, with counts on a completed run only, and none for a killed wake or a failed flag read; the status is returned exactly when the write went well and the run did not fail |
| Worker.ErrorRunsAddUp | backend/core/state_store.py:362-394 | The error events of the graph sum to the total of the card |
| Worker.TotalsAreSums | backend/core/state_store.py:362-379 | Over any history of wakes the three totals are the sums over exactly the wakes whose history row landed: counts of returned runs, one for each failed run |
| Worker.FailedRunsAreFailedWakes | backend/core/state_store.py:372-379 | Over any history of wakes the failed runs are as many as the wakes that raised or failed before their run and whose history row landed |
| Worker.DashboardNeverOver | backend/core/state_store.py:362-379 | Over any history of wakes the totals never exceed the labels in the mailbox, and equal them when every run completed and every row landed |
| Ledger.RecordRoundTrip | backend/core/state_store.py:168-178 | A record written in full is read back as it was, absent fields included |
| Ledger.KeysAreInjective | backend/core/state_store.py:323 | A reference is kept under its year, a dash and its number, and different references have different keys |
| Ledger.LedgerIsMap | backend/core/state_store.py:317-344 | After any sequence of records a look-up returns the latest record of that very reference, or none |
| Ledger.LedgerStore.RecordClaim | backend/core/state_store.py:317-336 | The upsert replaces the whole row of its key and no other |
| Ledger.LedgerStore.GetClaim | backend/core/state_store.py:338-344 | The look-up through the dashed key returns what a map keyed by reference would |
| Ledger.LedgerStore.ListClaims | backend/core/state_store.py:346-360 | Every claim once with its latest record, newest first, in whatever order the scan returns the rows |
| IsoWeeks.WeekInDays | frontend/src/metrics.ts:56-72 | The chart's millisecond arithmetic and rounding is exact on day numbers |
| IsoWeeks.WeekInRange | frontend/src/metrics.ts:56-72 | Week numbers are in 1..53 |
| IsoWeeks.FirstWeek | frontend/src/metrics.ts:60-64 | Week 1 is exactly the week of the year's first Thursday, as in section 4.1.4 of ISO 8601:2004 |
| IsoWeeks.NextWeek | frontend/src/metrics.ts:56-72 | From one week to the next the number grows by one, or the year does and the number is 1 again after at least 52 |
| IsoWeeks.SameWeek | frontend/src/metrics.ts:56-72 | Two days have the same week date exactly when they share a Monday-to-Sunday week |
| IsoWeeks.WeeksInOrder | frontend/src/metrics.ts:56-72 | Year and number strictly increase with the weeks, over all leap-year patterns |
| Calendar.CalendarIs | frontend/src/metrics.ts:39-50 | The civil calendar the chart computes with: time starts on the first of January 1970 and months have their lengths, leap years included |
| Buckets.KeyNamesBucket | frontend/src/metrics.ts:52-86 | At every granularity two instants have the same key exactly when they have the same bucket start |
| Buckets.KeySpells | frontend/src/metrics.ts:52-79 | A key spells the year, month, day and hour at which its bucket starts, or the week date of its days |
| Buckets.AdvanceTiles | frontend/src/metrics.ts:88-94 | From an aligned cursor the step ends at the next aligned instant, and the instants in between are exactly the cursor's bucket |
| Buckets.WindowIsAligned | frontend/src/metrics.ts:98-109 | Every window starts at a bucket start |
| Buckets.WindowHolds | frontend/src/metrics.ts:98-109 | A window holds its number of days: as many buckets by day, 24 times as many by hour, by week or month from the bucket of its first day; "all" starts with the earliest item, or now |
| Buckets.EarliestIsLeast | frontend/src/metrics.ts:122-125 | The earliest instant is a least one of the items, and absent exactly for none |
| Buckets.CursorsTile | frontend/src/metrics.ts:147-153 | The cursors increase, cover every instant from the start to past now without a gap, and the last is the bucket of now |
| Buckets.BuildBuckets | frontend/src/metrics.ts:127-162 | The loops over keys and items produce one bucket per cursor, in order, with the weight of exactly the items in its span |
| Buckets.SeriesConserves | frontend/src/metrics.ts:145-161 | The buckets add up to the weight of the items from the start to the end of the last bucket |
| Buckets.ChartMatchesTable | frontend/src/metrics.ts:111-162 | With unit weights and nothing dated after now the chart's total is the length of the table |
| Buckets.TableShows | frontend/src/metrics.ts:111-120 | The table lists exactly the items from the start of the window on, in their order |
| Buckets.KeysAreDistinct | frontend/src/metrics.ts:133-161 | Keys are pairwise distinct, and two series with the same start have the same keys |
| Stamps.KeyOrderIsTime | backend/scripts/failure_digest.py:76-80 | The sort key orders printed UTC instants exactly as time does, for fractions of up to nine digits |
| DigestGroups.NormalizeKeepsWords | backend/scripts/failure_digest.py:50-59 | Two messages have one key exactly when their scrubbed texts have the same words |
| DigestGroups.LabelsMean | backend/scripts/failure_digest.py:88-97 | The label of each severity, and the rank of a row without one: above a warning |
| DigestGroups.GroupRows | backend/scripts/failure_digest.py:100-127 | The dictionary loop computes one summary per key, ranked |
| DigestGroups.GroupingPartitions | backend/scripts/failure_digest.py:100-127 | Grouping is a partition: distinct keys, one group each, counts that add up to the rows, ranked by severity, then by count, and then as the keys first occur |
| DigestGroups.SummaryBounds | backend/scripts/failure_digest.py:119-126 | A group's first and last are the chronological bounds of its rows and its trace is a longest one |
| DigestGroups.GroupSays | backend/scripts/failure_digest.py:100-127 | A group says of the rows of one item type, rank and message their label, their number, their first and last time and one of their longest traces |
| DigestGroups.KeyDecidesLabel | backend/scripts/failure_digest.py:88-112 | Rows of one group share a label although the label is not part of the key |
| DigestGroups.DigestReadsBack | backend/scripts/failure_digest.py:179-201 | From rows to body: it fits, drops none of the first twenty groups, and reads back as exactly their traces under one cap |
| DigestBody.RenderBody | backend/scripts/failure_digest.py:150-176 | The two loops with early returns compute the first pass that fits, or the longest last resort that does |
| DigestBody.BodyFits | backend/scripts/failure_digest.py:20-176 | The body is at most 65536 characters, whatever the groups hold |
| DigestBody.LeastShortened | backend/scripts/failure_digest.py:158-176 | The body is the least shortened one that fits: whole traces, 4000 characters of each, 500, and only then with the fewest groups dropped |
| DigestBody.NothingDropped | backend/scripts/failure_digest.py:158-176 | With timestamps of up to 64 characters and counts under 20 digits some pass fits: all of the first twenty groups are shown and the last resort is never reached |
| Fences.ReadTrace | backend/scripts/failure_digest.py:142-146 | Inside a fence longer than every run of backticks in it, a reader with CommonMark's line endings and closing rule takes in the trace character for character |
| Fences.FencesSurvive | backend/scripts/failure_digest.py:130-176 | Reading the body with the opening and closing rules of section 4.5 of CommonMark 0.31 recovers exactly the traces shown |
| Fences.SectionLines | backend/scripts/failure_digest.py:130-138 | A section begins with its head line and its time line |
| Fences.TimesAreQuoted | backend/scripts/failure_digest.py:136 | The time line quotes the first and then the last time |
| Fences.WarningOpens | backend/scripts/failure_digest.py:151-156 | The body opens with the heartbeat warning exactly when there was no heartbeat |
| EntryNames.Names | backend/app/attachments_routes.py:50-65 | The counting loop gives each attachment its base name, numbered by its occurrence so far |
| EntryNames.BaseIs | backend/app/attachments_routes.py:57 | An attachment goes by the last component of its name, a closing slash apart |
| EntryNames.NamelessIsId | backend/app/attachments_routes.py:57 | It goes by its id if its name has no component |
| EntryNames.RenamedSpells | backend/app/attachments_routes.py:60-64 | A renamed entry carries its number before its suffix, or at its end if it has none |
| EntryNames.NamesAreDistinct | backend/app/attachments_routes.py:50-65 | The names are pairwise distinct if and only if no two different base names have a numbered form in common |
| EntryNames.DistinctUnlessTaken | backend/app/attachments_routes.py:50-65 | The names are pairwise distinct if and only if no file is called like the renamed form of a repeated one and no two repeated names with a closing dot and an inner dot meet |
| EntryNames.PlainNamesAreDistinct | backend/app/attachments_routes.py:50-65 | Without " (" in any base name the names are pairwise distinct |
| EntryNames.RenamedMeetsOriginal | backend/app/attachments_routes.py:50-65 | A file literally called "a (2)" collides with the second "a" |
| EntryNames.NamesHaveNoSlash | backend/app/attachments_routes.py:50-65 | No entry name holds a slash |

## Left out

Stated weaker than the code's full behaviour:

- RunLease.Exclusion: one clock for all processes; the clocks of the hosts can differ.
- Plans.PlansAreWellFormed: assumes of the digit class that it holds the ASCII digits and neither slash nor space; upper and lower case, white space and the extractor are parameters.
- PipelineCode.WakeRun.GetOrCreateLabel: the run knows its labels as marks; names and ids are those of `LabelNames`, whose lower-casing keeps the names apart.
- PipelineCode.WakeRun.CreateFullCard: an answer without `shortUrl` counts as a failed attach; the card's URL is its position on the board, and the description and the PDF are opaque.
- PipelineCode.WakeRun.ProcessOne: the extractor's answer is fixed per email although its call may fail; the letterhead, which `backend/pipeline/membrete_source.py` caches per run, counts as one call.
- Truth.AlwaysTruthful: the operator moves and archives cards but does not rename or delete them or edit labels, and Gmail lists only emails that are UNREAD; runs, arrivals and the operator come one after the other, and `Sessions.TruthfulTogether` lets emails arrive at any moment.
- Sessions.RunsAreSerial: the operator acts while no process is inside, and an email that arrives while one is inside waits for a later run.
- Timing.RunsExclude: each stay is bounded by that of some run; `Sessions.PunctualRunsAreSerial` takes the one the process makes.
- Truth.CommentFindsItsCard: cards within one list are in creation order, and archived lists do not occur.
- Resume.CrashThenRun: at most 100 unread emails, a list order Gmail keeps, and deadlines that are not reached; timestamps in rows are not part of the world. A call that raises inside an email is not a stop: it marks the email failed for good.
- Timing.RunTime: one call takes at most a given time, retries included; computing between calls takes none.
- Worker.ExecuteWake: the timestamp of the heartbeat row and the gauge within it are carried, not interpreted.
- Ledger.LedgerStore.ListClaims: rows with equal timestamps may come in any order.
- Buckets.BuildBuckets: local civil time without clock changes, and no special treatment of the years 0 to 99, which the `Date` constructor maps to 1900 to 1999.
- Stamps.KeyOrderIsTime: timestamps are printed instants of the years 0 to 9999 with a trailing Z.
- DigestGroups.GroupRows: the substitutions of `normalize_message` are one arbitrary function; splitting and joining the words is modelled.
- DigestBody.BodyFits: for fewer than 10 to the 19 groups.
- Fences.FencesSurvive: of CommonMark only lines, fences and indentation are read; messages, labels and timestamps are single lines, which `DigestGroups.DigestReadsBack` proves of the first two and assumes of timestamps.
- EntryNames.NamesHaveNoSlash: assumes attachment ids without a slash.

Not modelled:

- HTTP, the Azure clients, secrets, preflights and their error classification: only steps that succeed, fail, or take effect and then fail.
- PDF layout, letterhead blobs and zip bytes.
- Field extraction by regular expression or language model, HTML to plain text, and MIME decoding.
- Sign-in, tokens and the parsing of sender addresses; the allowlist is a test on the sender's domain.
- The choice between digest, silence and nothing in `build_result`, a two-way branch on row counts.
- React components, routing, settings forms, telemetry and logging.
