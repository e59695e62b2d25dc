# Verification model of the CLI supervisor and its neighbours

This project models, in Dafny, the parts of the repository whose behaviour is hardest to see by reading one function:

- the loop supervisor (`crates/local-deployment/src/loop_supervisor.rs`): delivery of wake-ups, scheduling on limit banners, and the parsers that turn a banner into an instant;
- the CLI activity monitor (`crates/local-deployment/src/cli_activity.rs`): the per-workspace state machine inside its tick loop, the bounded process walk, and the race between the size sweep and visibility events;
- executor profiles (`crates/executors/src/profile.rs`), the preview navigation stack (`crates/preview-proxy/src/devtools_script.js`), workspace titles (`crates/executors/src/title_gen.rs`), resume evidence (`crates/local-deployment/src/writer_probe.rs`), git porcelain parsers (`crates/git/src/cli.rs`) and the SSH config file (`crates/desktop-bridge/src/ssh_config.rs`).

Code that works step by step is modelled by methods with loops or by classes whose methods update fields; each is proved equal to a specification function, and the guarantees are lemmas about those functions, over all inputs or over every run. Iteration over hash tables picks any remaining key, so results hold for every order.

## Modules

| file | models |
|---|---|
| `Text.dfy` | Rust's `str` search, trimming, lines; Unicode whitespace and control characters; decimal digits |
| `ResetClock.dfy`, `ResetClockProofs.dfy` | limit detection, clock and zone parsers, wake-up arithmetic |
| `LoopSupervisor.dfy` | rows, one delivery, one scheduling step, and the state machine with users, sessions and attaches around it |
| `SupervisorLoop.dfy` | the delivery and scheduling loops over rows updated in place |
| `LoopSupervisorProofs.dfy`, `LoopSupervisorRuns.dfy` | invariants of each step; conservation, dedupe, bounds and healing over runs |
| `LimitDetection.dfy` | which panes show which limit, in terms of the phrases they contain |
| `LoopSupervisorOutcomes.dfy` | what one delivery and one scheduling step do, exactly |
| `LoopSupervisorLosses.dfy` | exactly when retries are dropped, manual wake-ups deleted and caps exceeded, with runs that do it |
| `ActivityMonitor.dfy`, `ActivityRuns.dfy` | the monitor loop; attention and acknowledgement over runs of ticks |
| `ProcessSearch.dfy` | the walk over the process table |
| `SizeSweep.dfy` | the sweep, the events and their interleavings |
| `Profiles.dfy` | overrides as a diff, merging, canonical keys, save and load |
| `NavStack.dfy` | the navigation script next to a browser's session history |
| `TitleGen.dfy` | arrow normalisation, canonical titles, the first-line hint |
| `WriterProbe.dfy` | argument-vector scans and the evidence they give |
| `Porcelain.dfy` | status and worktree parsers with renderers |
| `SshConfig.dfy` | host block replacement and a reader of the file |

## Assumptions

- Every database query, tmux call, pane capture and send is an input of the step that performs it and may fail at each call. One check followed by its action (the parked-prompt check and the send, for instance) is one step; users, sessions and attaches may act between any two steps. Inside a re-park another writer may fill the slot between the check and the write.
- `list_due` and `list_enabled` return exactly the rows their queries select; `find_latest_by_workspace_id` returns some row of the workspace, or none when it has none. A new session's initial prompt goes to its own fresh row.
- Instants are nanoseconds as unbounded integers. Pane text is given already lowercased.
- `canonical_variant_key` and `normalizeUrl` are arbitrary functions, the first idempotent; `Path::file_name` and `Uuid::parse_str` are arbitrary partial functions.
- Session storage works.
- In the sweep model the sweep decides about a client of the web terminal as its event did; `SweepDecidesLikeEventIff` says exactly when it does. Which clients without a presence it switches is arbitrary. Listings and writes may fail, on both sides.

## Where code and text differ

- Disabling a loop deletes all pending wake-ups of the workspace, manual ones included (`crates/server/src/routes/loop_automation.rs:108-112` speaks of auto-retries): `SavingDeletesIff` says exactly when, `DisablingLosesManualPrompt` gives a run.
- A transient error while reading the policy drops a limit wake-up instead of retrying it (`crates/local-deployment/src/loop_supervisor.rs:395-408`): `LimitDroppedIff` lists exactly the guards under which a retry is marked fired with nothing typed or parked, `PolicyErrorLosesRetry` gives a run; healing restores it (`TickHeals`).
- The wake-up after a reset is not the next buffered reset over all days: `WakeIsFirstOverAllDaysIff` gives the exact condition, `WakeSkipsYesterday` an example.
- A bare zone name counts as UTC only before closing punctuation: `BareUtcIff`, `BareUtcWithTextIsIgnored`.
- The process walk can miss an agent in a wide tree: `SubtreeHasAgent` finds an agent in every order if fewer than 4096 processes lie down to the level below it, and in no order if 4096 lie down to the level of every agent; in between it depends on the order. `WideTableHidesAgent` is a table of the second kind.
- The read order does not protect every event. A sweep's write leaves the right flag exactly when an even number of events changed the presence since the sweep read it (`RepairAgreesIff`); with one event per client and sweep it reverts exactly when that event came after the read (`RepairRevertsIff`), which takes an earlier event that could not write tmux: `FlagAgreesAtQuiescence`, `FailedRefreshCanRevert`. Two events inside one sweep suffice as well: `TwoEventsDisagree`.
- Attempt caps hold only as far as increments are written: `SendsBounded`, `LostIncrementIsUncounted`; `LostIncrementBreaksCap` has runs with any number of sends under any cap.
- Dropping recent models cannot be expressed as an override: `OverridesRestoreIff`, `DroppedModelsComeBackEmpty`; and can store one that does nothing: `OverridesMinimalIff`, `EmptyRecordStoredForNothing`.
- If two keys that are not canonical compete for one canonical key with different values, what survives depends on hash order: `OrderIrrelevantIff`, `CompetingSpellings`. The built-in profiles have one canonical key per executor (`crates/executors/default_profiles.json`), so for them saving and loading is exact (`SaveThenLoad`, `SaveThenLoadIff`); an override file edited by hand is where it can happen.
- Not every browser event can be told from what the script sees: a run is mirrored throughout exactly when all its events are safe (`MirrorsThroughoutIff`). A jump to the URL of an entry that the browser discards is not (`JumpMirrorsIff`, `JumpAheadKeepsDroppedEntries`), nor is a document restored with the variables it was frozen with once the history has changed (`RestoreMirrorsIff`, `FrozenDocumentForgets`). With equal URLs a traversal may land on the wrong one: `TraversalLandsIff`, `BackToEqualUrlLandsAhead`.
- Canonical titles are not a fixed point when dropping control characters empties a word or bares an arrow: `CanonicalTwiceIff`, `WholeTitleTwiceIff`, `ControlBreaksIdempotence`.
- A branch of a record without HEAD leaks into a later one: `WorktreeRoundTripIff`, `BranchCanLeak`.
- Repeating an SSH update never leaves the same bytes: `RepeatedUpdateAddsBlank`.

## Model

| member | source | states |
|---|---|---|
| LoopSupervisorRuns.ManualPromptsConserved | crates/local-deployment/src/loop_supervisor.rs:391-606 | a manual prompt pending at any moment of any run is later still pending, or since then typed or parked with its own text, given up for lack of a session row, or withdrawn by the user, whatever errors occurred |
| LoopSupervisorRuns.ParkedPromptsConserved | crates/local-deployment/src/loop_supervisor.rs:551-592 | in every reachable state a prompt a wake-up parked is still in its slot or was delivered by an attach since |
| LoopSupervisorRuns.DuplicatesNeedFailedMarks | crates/local-deployment/src/loop_supervisor.rs:391-515 | a wake-up is typed or parked at most once more than its mark-fired write failed |
| LoopSupervisorRuns.RetriesDeduplicated | crates/local-deployment/src/loop_supervisor.rs:629-640 | in every reachable state a workspace has at most one unfired wake-up of each limit kind |
| LoopSupervisorRuns.TickHeals | crates/local-deployment/src/loop_supervisor.rs:383-388 | after a tick without scheduling errors every enabled, uncapped workspace whose live pane shows a limit has exactly one pending wake-up of that kind, whatever delivery fired or dropped; new ones are in the future |
| LoopSupervisorRuns.RunHeals | crates/local-deployment/src/loop_supervisor.rs:609-647 | in any run, a scheduling step whose queries succeed leaves exactly one pending wake-up of the kind its workspace shows, in the future if new |
| LoopSupervisorRuns.ScheduleAllHeals | crates/local-deployment/src/loop_supervisor.rs:609-647 | the scheduling loop from any database without duplicates: succeeds, keeps every row, adds only future rows, leaves a pending wake-up for each limit shown |
| LoopSupervisorRuns.ScheduleOneHeals | crates/local-deployment/src/loop_supervisor.rs:611-641 | the same for one policy, including every failing query |
| LoopSupervisorRuns.SendsBounded | crates/local-deployment/src/loop_supervisor.rs:398-408 | limit sends since the policy was saved equal the attempt counter plus lost increments, and exceed the cap by at most the latter |
| LoopSupervisorLosses.LostIncrementIsUncounted | crates/local-deployment/src/loop_supervisor.rs:489-493 | a send whose increment fails leaves the policy unchanged but counts as one more send |
| LoopSupervisorLosses.LostIncrementBreaksCap | crates/local-deployment/src/loop_supervisor.rs:489-493 | for every cap and every number there is a run from the empty database with that many limit sends since the policy was saved |
| LoopSupervisorLosses.LimitDroppedIff | crates/local-deployment/src/loop_supervisor.rs:396-513 | a pending limit wake-up is marked fired with nothing typed or parked exactly when the mark is written and the policy is unreadable, absent, disabled or capped, or the live pane shows another kind or none, or the session is gone or the send fails and a prompt is parked already or there is no session row |
| LoopSupervisorLosses.PolicyErrorDropsRetry | crates/local-deployment/src/loop_supervisor.rs:395-408 | wherever a limit wake-up would be sent, a failing policy read drops it instead |
| LoopSupervisorLosses.PolicyErrorLosesRetry | crates/local-deployment/src/loop_supervisor.rs:395-408 | a run in which that happens to an enabled loop under its cap |
| LoopSupervisorLosses.SavingDeletesIff | crates/server/src/routes/loop_automation.rs:98-112 | saving a policy removes a pending wake-up of any kind exactly when it disables the loop of that workspace and the delete succeeds |
| LoopSupervisorLosses.DisablingLosesManualPrompt | crates/server/src/routes/loop_automation.rs:108-112 | a run in which a manual wake-up disappears with nothing typed or parked |
| LoopSupervisorOutcomes.SentIff | crates/local-deployment/src/loop_supervisor.rs:396-493 | a wake-up is typed exactly when its policy allows it (a manual one needs none), its session lives, the pane shows its kind (a manual one whatever it shows), no attach delivers, nothing is parked and tmux takes the keys; what is typed is its own prompt, else the continuation, else the default |
| LoopSupervisorOutcomes.ParkedIff | crates/local-deployment/src/loop_supervisor.rs:410-512 | its prompt is parked exactly when the session is gone or typing failed, and a slot is free to the end |
| LoopSupervisorOutcomes.StaysPendingIff | crates/local-deployment/src/loop_supervisor.rs:410-606 | it stays pending exactly when the pane cannot be read or is not free, the re-park meets an error, a manual prompt finds its slot taken, or the mark cannot be written; no other row changes |
| LoopSupervisorOutcomes.ManualAlwaysDelivers | crates/local-deployment/src/loop_supervisor.rs:441-486 | a manual wake-up is typed into every live session whose pane is free and takes the keys |
| LoopSupervisorOutcomes.ScheduledIff | crates/local-deployment/src/loop_supervisor.rs:611-641 | a row is added exactly when an uncapped policy's live pane shows a limit with none of its kind pending and the queries succeed; it is the unfired row of that kind, at the stated time |
| LoopSupervisorOutcomes.RowForSignal | crates/local-deployment/src/loop_supervisor.rs:629-639 | a rate limit retries after the interval, at least a second; an overload after 240 s; a window limit without a clock after 1800 s, with one at the first buffered reset |
| LoopSupervisorOutcomes.AttachClears | crates/db/src/models/session.rs:341-356 | a confirmed attach empties the slot it delivered |
| LoopSupervisorRuns.EffectsJustified | crates/local-deployment/src/loop_supervisor.rs:396-515 | every send of a run happened with no prompt parked and no delivery in flight; a limit send only while the pane shows that kind and the policy is enabled and under its cap, so never for an unknown kind; parks only with nothing parked; giving up only without a session row |
| LoopSupervisorRuns.StepJustified | crates/local-deployment/src/loop_supervisor.rs:396-515 | each step only appends to the history, and only justified effects |
| LoopSupervisorRuns.SendDecided | crates/local-deployment/src/loop_supervisor.rs:398-486 | the circumstances under which one delivery sends |
| LoopSupervisorRuns.AttemptDischarges | crates/local-deployment/src/loop_supervisor.rs:410-515 | a manual wake-up is marked fired only after its prompt was typed, parked or has no session row to go to |
| LoopSupervisorRuns.StepAccounts | crates/local-deployment/src/loop_supervisor.rs:391-606 | every step keeps every manual prompt accounted for |
| LoopSupervisorRuns.InvAlways | crates/local-deployment/src/loop_supervisor.rs:383-647 | all invariants hold in every reachable state |
| LoopSupervisorRuns.DeliveriesKept | crates/local-deployment/src/loop_supervisor.rs:391-515 | every step keeps deliveries bounded by failed marks |
| LoopSupervisorRuns.DeliveryLoopIsSteps | crates/local-deployment/src/loop_supervisor.rs:391-515 | the delivery loop is a run of the machine's delivery steps, ending idle exactly when a mark fails |
| LoopSupervisorRuns.SchedulingLoopIsSteps | crates/local-deployment/src/loop_supervisor.rs:609-647 | the scheduling loop is a run of the machine's scheduling steps, ending idle exactly when a query fails |
| LoopSupervisorProofs.ReparkFacts | crates/local-deployment/src/loop_supervisor.rs:551-592 | a re-park never overwrites a filled slot, changes no other rows, and each outcome leaves exactly its effect |
| LoopSupervisorProofs.DedupeKept | crates/local-deployment/src/loop_supervisor.rs:629-640 | every step keeps wake-ups deduplicated |
| LoopSupervisorProofs.ParksKept | crates/local-deployment/src/loop_supervisor.rs:410-592 | every step keeps parked prompts in their slot or delivered |
| LoopSupervisorProofs.AttemptsKept | crates/local-deployment/src/loop_supervisor.rs:398-493 | every step keeps the counter equal to sends minus lost increments and within the cap |
| LoopSupervisorProofs.RowsKept | crates/local-deployment/src/loop_supervisor.rs:391-394 | a listed wake-up stays its unfired row until delivered, or was deleted |
| LoopSupervisorProofs.CarriesKept | crates/db/src/models/session.rs:341-356 | what an attach carries stays in the slot it was read from |
| SupervisorLoop.Supervisor.ReparkPrompt | crates/local-deployment/src/loop_supervisor.rs:551-592 | the outcome and new rows of a re-park |
| SupervisorLoop.Supervisor.RecordSend | crates/local-deployment/src/loop_supervisor.rs:489-493 | the rows after a successful send |
| SupervisorLoop.Supervisor.Mark | crates/db/src/models/loop_automation.rs:363-371 | marking fired, or the failure that ends the tick |
| SupervisorLoop.Supervisor.DeliverWakeup | crates/local-deployment/src/loop_supervisor.rs:393-513 | one iteration of the delivery loop |
| SupervisorLoop.Supervisor.DeliverDueWakeups | crates/local-deployment/src/loop_supervisor.rs:391-515 | the whole loop, stopping at the first failing mark |
| SupervisorLoop.Supervisor.SchedulePolicy | crates/local-deployment/src/loop_supervisor.rs:611-645 | one iteration of the scheduling loop |
| SupervisorLoop.Supervisor.DetectAndSchedule | crates/local-deployment/src/loop_supervisor.rs:609-647 | the whole loop, stopping at the first failing query |
| SupervisorLoop.Supervisor.Tick | crates/local-deployment/src/loop_supervisor.rs:383-388 | delivery, then scheduling unless delivery failed |
| ResetClockProofs.WakeIsFirstBufferedReset | crates/local-deployment/src/loop_supervisor.rs:158-200 | for every pane, time and zone a parsed reset wakes at the first of today's stated clock plus 300 s plus k days that is ahead, at most 86640 s away |
| ResetClockProofs.WakeIsFirstOverAllDaysIff | crates/local-deployment/src/loop_supervisor.rs:188-200 | over past days too this holds exactly when yesterday's buffered reset has passed |
| ResetClockProofs.WakeSkipsYesterday | crates/local-deployment/src/loop_supervisor.rs:188-200 | a reset at 23:58 read at 00:01 waits for the next night |
| ResetClockProofs.FireAtIsInTheFuture | crates/local-deployment/src/loop_supervisor.rs:633-639 | all three kinds of limit schedule strictly in the future |
| ResetClockProofs.BannerRoundTrip | crates/local-deployment/src/loop_supervisor.rs:158-354 | every hour, minute and offset up to 14:59 either way, in every notation (24-hour or am/pm, padded, spaced or dotted; minutes in two digits, one, or none on the hour; the zone in parentheses or not, as z or as an offset alone or after utc or gmt, as HH:MM, HH:M, HHMM, HH or H), with any filler without digits, any suffix and any prefix without "reset", parses to that exact instant whatever the local zone |
| ResetClockProofs.BareBannerRoundTrip | crates/local-deployment/src/loop_supervisor.rs:158-180 | without a zone, to that clock in the local zone |
| ResetClockProofs.To24Means | crates/local-deployment/src/loop_supervisor.rs:238-252 | a marker keeps the position on the clock face and puts it in the right half of the day |
| LimitDetection.MidnightIff | crates/local-deployment/src/loop_supervisor.rs:173-180 | the day a clock is put on is the calendar day of now in that zone |
| ResetClockProofs.ResetAtIsTotal | crates/local-deployment/src/loop_supervisor.rs:168-180 | no date constructor rejects what the parsers accept |
| ResetClockProofs.ResetIsToday | crates/local-deployment/src/loop_supervisor.rs:173-180 | a parsed reset is less than a day ago and at most 86340 s ahead |
| ResetClockProofs.ZoneOffsetInRange | crates/local-deployment/src/loop_supervisor.rs:289-354 | every accepted zone is within 14:59 of UTC |
| ResetClockProofs.StatedClockInRange | crates/local-deployment/src/loop_supervisor.rs:254-257 | every accepted clock is a time of day |
| ResetClockProofs.BareUtcIff | crates/local-deployment/src/loop_supervisor.rs:291-304 | "utc" or "gmt" without an offset is UTC exactly when only closing punctuation follows |
| ResetClockProofs.BareUtcWithTextIsIgnored | crates/local-deployment/src/loop_supervisor.rs:298-303 | "(utc) now" names no zone |
| ResetClockProofs.MoreTextNeverHides | crates/local-deployment/src/loop_supervisor.rs:101-127 | whatever the clock and zone, text around a pane never hides a rate limit, nor a window limit except behind a rate limit |
| LimitDetection.DetectedIff | crates/local-deployment/src/loop_supervisor.rs:101-141 | which limit any pane shows, in terms of the phrases and lines it contains |
| LimitDetection.PhraseShown | crates/local-deployment/src/loop_supervisor.rs:106-127 | each listed phrase counts wherever it stands |
| LimitDetection.OverloadLineShown | crates/local-deployment/src/loop_supervisor.rs:134-139 | a line with the word and the code is an overload whatever surrounds it, unless another phrase is there |
| LimitDetection.ScatteredWordsShowNothing | crates/local-deployment/src/loop_supervisor.rs:130-139 | on different lines they are not |
| ResetClockProofs.ZoneTextOf | crates/local-deployment/src/loop_supervisor.rs:289-312 | a rendered offset is read back with or without the space before it |
| ResetClock.ParseClockAfter | crates/local-deployment/src/loop_supervisor.rs:206-258 | the clock and the position after it, or none |
| ResetClock.ParseMinute | crates/local-deployment/src/loop_supervisor.rs:223-236 | the optional minutes |
| ResetClock.ReadMeridiem | crates/local-deployment/src/loop_supervisor.rs:238-257 | the 24-hour clock after an am/pm marker, or a rejection |
| ResetClock.AdvancePastAmPm | crates/local-deployment/src/loop_supervisor.rs:266-280 | the position after the marker |
| ResetClock.ParseSignedOffset | crates/local-deployment/src/loop_supervisor.rs:316-354 | the offset in seconds, or none |
| ActivityRuns.AttentionIsEarned | crates/local-deployment/src/cli_activity.rs:573-606 | without reports and other writers, attention means a run went quiet while detached with output at least 5 s after the first detached sighting since the last attached one, and no attached sighting was recorded since |
| ActivityRuns.AttentionIff | crates/local-deployment/src/cli_activity.rs:573-606 | attention stands exactly when a tick raised it and every tick since let it stand |
| ActivityRuns.QuietRunIsRaised | crates/local-deployment/src/cli_activity.rs:866-917 | a detached run that goes quiet with output at least 5 s into the detachment is raised if the write succeeds |
| ActivityRuns.UnreportedIff | crates/local-deployment/src/cli_activity.rs:890-916 | without a report a pane is running exactly while its agent produces output, and exactly when it asks for attention |
| ActivityRuns.ReportedIff | crates/local-deployment/src/cli_activity.rs:877-887 | with one the reported bucket, except attention that was seen |
| ActivityRuns.RecordedIff | crates/local-deployment/src/cli_activity.rs:603-606 | the bucket moves exactly when the write succeeds |
| ActivityRuns.MissingGoesIdle | crates/local-deployment/src/cli_activity.rs:608-622 | an unobserved workspace goes idle exactly when the snapshot is complete and the write succeeds |
| ActivityRuns.DetachedSinceIsFirstSighting | crates/local-deployment/src/cli_activity.rs:578-587 | the remembered detach time is that first sighting's |
| ActivityRuns.SeenReportNeverRings | crates/local-deployment/src/cli_activity.rs:588-603 | with nondecreasing stamps a report seen from an attached terminal never asks for attention again |
| ActivityRuns.AckedIsLastSeen | crates/local-deployment/src/cli_activity.rs:591-600 | the acknowledged stamp is the one of the last attached tick with a report |
| ActivityRuns.RingsIff | crates/local-deployment/src/cli_activity.rs:881-887 | exactly when a report asks for attention |
| ActivityRuns.BackwardStampsReRing | crates/local-deployment/src/cli_activity.rs:591-600 | with stamps going back a seen report can ring again |
| ActivityRuns.AttachedNeverAttention | crates/local-deployment/src/cli_activity.rs:866-917 | an attached tick never asks for attention |
| ActivityRuns.IncompleteSnapshotChangesNothing | crates/local-deployment/src/cli_activity.rs:609-625 | an incomplete snapshot leaves unobserved workspaces as stored |
| ActivityMonitor.Monitor.Tick | crates/local-deployment/src/cli_activity.rs:541-626 | one tick steps every workspace independently of table order |
| ActivityMonitor.Monitor.Visit | crates/local-deployment/src/cli_activity.rs:572-606 | the step of one observed workspace, leaving the others alone |
| ActivityMonitor.Monitor.TrackDetached | crates/local-deployment/src/cli_activity.rs:578-582 | the remembered detach time |
| ActivityMonitor.Monitor.ViewReport | crates/local-deployment/src/cli_activity.rs:591-602 | acknowledgement and the view of a report |
| ActivityMonitor.Monitor.ReadRows | crates/local-deployment/src/cli_activity.rs:552-570 | buckets read back, or kept when unreadable |
| ActivityMonitor.Monitor.CollapseMissing | crates/local-deployment/src/cli_activity.rs:609-625 | vanished sessions go idle, given a complete snapshot |
| ActivityMonitor.Monitor.Write | crates/local-deployment/src/cli_activity.rs:630-646 | a failed write changes nothing |
| ProcessSearch.SubtreeHasAgent | crates/local-deployment/src/cli_activity.rs:205-226 | terminates on any table; a found agent is a real descendant with fewer than 4096 processes at its depth or less; below 4096 descendants the answer is exact; an agent at depth d is found if fewer than 4096 processes lie at depth d + 1 or less; a plain root with 4095 other children is always answered no |
| ProcessSearch.LevelsAboveListed | crates/local-deployment/src/cli_activity.rs:209-224 | everything no deeper than the process about to be visited is listed |
| ProcessSearch.RootNotWide | crates/local-deployment/src/cli_activity.rs:212 | a plain root with 4095 other children leaves no agent in reach |
| ProcessSearch.StoppedAbove | crates/local-deployment/src/cli_activity.rs:209-224 | when the walk stops, everything listed lies at most one level below any agent not met |
| ProcessSearch.LevelStep | crates/local-deployment/src/cli_activity.rs:219-223 | the worklist stays in order of depth |
| ProcessSearch.AddChildren | crates/local-deployment/src/cli_activity.rs:219-223 | all unseen children are added once, in any order |
| ProcessSearch.WideTableHidesAgent | crates/local-deployment/src/cli_activity.rs:212 | a table with an agent of which none is in reach, so the answer is wrong in every order |
| ProcessSearch.ClosedHoldsPath | crates/local-deployment/src/cli_activity.rs:206-225 | a list closed under children holds every descendant |
| SizeSweep.FlagAgreesAtQuiescence | crates/local-deployment/src/cli_activity.rs:704-837 | with at most one event per client overlapping a sweep, every client without an event in flight and without a failed event write has the flag its presence asks for, in every interleaving and whichever listings and writes of the sweeps fail |
| SizeSweep.RepairAgreesIff | crates/local-deployment/src/cli_activity.rs:704-837 | however many events overlap and whatever failed, a sweep's write leaves the right flag exactly when an even number of events changed the presence since the sweep read it |
| SizeSweep.RepairRevertsIff | crates/local-deployment/src/cli_activity.rs:704-837 | in a run, at most one has, the write reverts exactly then, and only for a client with an earlier failed event write |
| SizeSweep.FailedRefreshCanRevert | crates/local-deployment/src/cli_activity.rs:704-837 | a run in which, after a failed event write, a late repair reverts the next event |
| SizeSweep.TwoEventsDisagree | crates/local-deployment/src/cli_activity.rs:704-837 | with two events of a client inside one sweep a wrong flag can stay although no write fails |
| SizeSweep.NoNewFlagWithOldPresence | crates/local-deployment/src/cli_activity.rs:704-710 | a sweep never reads a newer flag than the presence it then reads |
| SizeSweep.SweepsNeverOverlap | crates/local-deployment/src/cli_activity.rs:521-539 | at most one sweep is alive |
| SizeSweep.SwappedReadsDisagree | crates/local-deployment/src/cli_activity.rs:704-710 | with the reads swapped one event suffices to leave a wrong flag |
| SizeSweep.UndisturbedSweepRepairs | crates/local-deployment/src/cli_activity.rs:680-837 | whatever the flags were and whatever failed before, a sweep that no event overlaps makes every client agree whose write it does not skip |
| SizeSweep.RepairedCanStart | crates/local-deployment/src/cli_activity.rs:680-837 | with none skipped, the guarantees of a run hold again from there |
| SizeSweep.SweepDecidesLikeEventIff | crates/local-deployment/src/cli_activity.rs:118-144 | exactly when the sweep decides as the event did |
| SizeSweep.ManualClientIff | crates/local-deployment/src/cli_activity.rs:118-144 | clients without a presence are left alone once, then excluded after twenty idle minutes |
| SizeSweep.InvKept | crates/local-deployment/src/cli_activity.rs:685-837 | the interleaving invariant is kept by every step |
| Profiles.OverridesRestore | crates/executors/src/profile.rs:381-476 | merging the computed overrides restores the current profiles, dropped recent models as an empty record |
| Profiles.OverridesRestoreIff | crates/executors/src/profile.rs:452-457 | exactly restored if and only if no executor dropped recent models its default has |
| Profiles.DroppedModelsComeBackEmpty | crates/executors/src/profile.rs:452-457 | profiles for which they are not |
| Profiles.OverridesMinimalIff | crates/executors/src/profile.rs:426-476 | contained in every override set of the same effect, unless the default record is empty and dropped |
| Profiles.EmptyRecordStoredForNothing | crates/executors/src/profile.rs:452-457 | profiles for which they are not |
| Profiles.MergeWithDefaults | crates/executors/src/profile.rs:381-402 | the deep merge, for any order |
| Profiles.InsertAll | crates/executors/src/profile.rs:385-392 | the merge of one profile |
| Profiles.ComputeOverrides | crates/executors/src/profile.rs:405-476 | succeeds exactly when nothing built in is missing, with the diff; otherwise names a real deletion |
| Profiles.FindDeletion | crates/executors/src/profile.rs:410-430 | the scan for deletions |
| Profiles.Diff | crates/executors/src/profile.rs:433-457 | the diff of one profile |
| Profiles.CanonicaliseConfigs | crates/executors/src/profile.rs:292-308 | for any order: only canonical keys, exactly the images of the old, canonical values untouched, every value from a key of that form |
| Profiles.ExecutorConfigs.Canonicalise | crates/executors/src/profile.rs:292-308 | the same for every executor |
| Profiles.CanonicalisedTwice | crates/executors/src/profile.rs:292-308 | a second run changes nothing |
| Profiles.SaveThenLoad | crates/executors/src/profile.rs:322-378 | when no two built-in keys compete for a canonical form, saving then loading gives the canonical form of what was saved, in any hash order |
| Profiles.SaveThenLoadIff | crates/executors/src/profile.rs:322-378 | and only then, over all current profiles and orders |
| Profiles.SaveThenLoadKeeps | crates/executors/src/profile.rs:322-378 | saving then loading loses no configuration, whatever the built-in keys |
| Profiles.OrderIrrelevantIff | crates/executors/src/profile.rs:292-308 | the outcome of canonicalising is the same for every order exactly when no two keys compete with different values |
| Profiles.CompetingSpellings | crates/executors/src/profile.rs:292-308 | two spellings of one variant of which either may survive |
| NavStack.StackMirrorsHistory | crates/preview-proxy/src/devtools_script.js:53-212 | over every run in which normalised URLs stay apart, as long as all events are safe, stack and index are the browser's history and position, restored documents included |
| NavStack.MirrorsThroughoutIff | crates/preview-proxy/src/devtools_script.js:53-212 | such a run is mirrored throughout exactly when all its events are safe |
| NavStack.JumpMirrorsIff | crates/preview-proxy/src/devtools_script.js:127-158 | a new entry that is only observed is mirrored exactly when it reuses no URL of the history but the one entry ahead it replaces |
| NavStack.JumpAheadKeepsDroppedEntries | crates/preview-proxy/src/devtools_script.js:143-150 | a jump that is not mirrored |
| NavStack.TraversalLandsIff | crates/preview-proxy/src/devtools_script.js:127-158 | an observed traversal lands right exactly when no equal URL is tried earlier |
| NavStack.BackToEqualUrlLandsAhead | crates/preview-proxy/src/devtools_script.js:132-137 | a traversal that does not |
| NavStack.RestoreMirrorsIff | crates/preview-proxy/src/devtools_script.js:194-196 | a document restored at an entry it knew mirrors exactly when the history is still the one it knew |
| NavStack.FrozenDocumentForgets | crates/preview-proxy/src/devtools_script.js:194-196 | a run in which a restored document does not know what lies ahead |
| NavStack.IndexAlwaysInRange | crates/preview-proxy/src/devtools_script.js:108-183 | whatever is stored, fractional indexes included, and whatever is observed, the index is a position in the stack once the document has initialised |
| NavStack.LoadOfSave | crates/preview-proxy/src/devtools_script.js:53-93 | loading what was saved is the identity |
| NavStack.UrlsSkipJunk | crates/preview-proxy/src/devtools_script.js:59-72 | stored entries with a URL are read in order, others skipped |
| NavStack.OutsideIsLast | crates/preview-proxy/src/devtools_script.js:74-75 | a stored index outside the stack stands for its last entry |
| NavStack.BetweenEntries | crates/preview-proxy/src/devtools_script.js:142-158 | a stored index between two entries points at neither |
| NavStack.MirrorsKeptIff | crates/preview-proxy/src/devtools_script.js:161-245 | a browser event keeps the mirror exactly when it is safe: a hash jump or navigation that meets `JumpMirrorsIff`, a restore that meets `RestoreMirrorsIff`, or any other event |
| NavStack.FrozenKept | crates/preview-proxy/src/devtools_script.js:161-245 | frozen documents keep knowing the entry they were left at |
| NavStack.Navigation.EnsureCurrentInStack | crates/preview-proxy/src/devtools_script.js:108-159 | the new stack and index for each mode |
| NavStack.Navigation.Search | crates/preview-proxy/src/devtools_script.js:143-150 | the first matching entry |
| NavStack.Navigation.ObserveLocation | crates/preview-proxy/src/devtools_script.js:161-168 | observe and save |
| NavStack.Navigation.InitializeNavigation | crates/preview-proxy/src/devtools_script.js:170-183 | load, repair and observe |
| NavStack.Navigation.ObserveBetween | crates/preview-proxy/src/devtools_script.js:142-158 | the first observation after a stored index between two entries |
| TitleGen.NormalizeArrows | crates/executors/src/title_gen.rs:85-91 | the repeated replacement terminates and is the simultaneous rewrite of every arrow between spaces |
| TitleGen.PassKeepsScan | crates/executors/src/title_gen.rs:87-89 | one non-overlapping pass changes nothing about the final result |
| TitleGen.PassReducesArrows | crates/executors/src/title_gen.rs:87-89 | each pass strictly reduces the arrows |
| TitleGen.TrimTail | crates/executors/src/title_gen.rs:108-121 | the longest prefix not ending in listed punctuation or an arrow fragment |
| TitleGen.TrimTailLoop | crates/executors/src/title_gen.rs:108-121 | the loop computes it |
| TitleGen.CanonicalizeTitle | crates/executors/src/title_gen.rs:100-123 | the whole pipeline |
| TitleGen.CanonicalTwice | crates/executors/src/title_gen.rs:100-123 | idempotent when the only control characters are whitespace |
| TitleGen.CanonicalTwiceIff | crates/executors/src/title_gen.rs:100-123 | on any text, idempotent exactly when, of the words as spelled in the title, none starting inside what cap and trimming keep is empty, and none but the first is an arrow with a space after it there |
| TitleGen.WholeTitleTwiceIff | crates/executors/src/title_gen.rs:100-123 | when the cleaned text fits and ends well: exactly when no word is all control characters and no interior word comes out as an arrow |
| TitleGen.TitleOfWords | crates/executors/src/title_gen.rs:100-123 | the title is a prefix of the cleaned words joined by spaces |
| TitleGen.TitleIsLongest | crates/executors/src/title_gen.rs:100-123 | the title is the longest start of the cleaned words within the cap that does not end badly |
| TitleGen.BadEndIff | crates/executors/src/title_gen.rs:112-116 | what a title may not end in |
| TitleGen.CleanedJoin | crates/executors/src/title_gen.rs:101-102 | rewriting arrows and dropping control characters acts word by word |
| TitleGen.FixedIffTidy | crates/executors/src/title_gen.rs:100-123 | a title is a fixed point exactly when it is tidy and has no arrow between spaces |
| TitleGen.ControlBreaksIdempotence | crates/executors/src/title_gen.rs:101-102 | a text on which it is not |
| TitleGen.HintIsNotCapped | crates/executors/src/title_gen.rs:173-177 | for an accepted line the cap truncates nothing |
| TitleGen.FirstLineTitleHint | crates/executors/src/title_gen.rs:132-178 | exactly when a hint is given, and what it is |
| TitleGen.AcceptsIff | crates/executors/src/title_gen.rs:155-172 | a line is accepted exactly with an arrow and at most 100 characters, or at most 8 words and 48 characters before a body, unless it ends like a clause |
| TitleGen.HeadingStripped | crates/executors/src/title_gen.rs:138-152 | one to six hashes before whitespace go |
| TitleGen.OtherHashesKept | crates/executors/src/title_gen.rs:138-152 | other hashes stay |
| TitleGen.PlainTitleIsHint | crates/executors/src/title_gen.rs:132-178 | a short tidy first line before a body is its own hint |
| TitleGen.CollapseIsTidy | crates/executors/src/title_gen.rs:101 | collapsed text has single spaces only |
| TitleGen.TidyIsCollapsed | crates/executors/src/title_gen.rs:101 | and collapses to itself |
| WriterProbe.EvidenceIsJoin | crates/local-deployment/src/writer_probe.rs:24-109 | for both agents, evidence of a concatenated list is the join of the parts |
| WriterProbe.EvidenceIgnoresOrder | crates/local-deployment/src/writer_probe.rs:165-197 | evidence ignores order and repetition |
| WriterProbe.ConcludeJoins | crates/local-deployment/src/writer_probe.rs:102-108 | differing ids or anything unreadable is ambiguous |
| WriterProbe.RenderedLineParses | crates/local-deployment/src/writer_probe.rs:140-160 | any rendered Codex line without image options gives back exactly its operands and its --last |
| WriterProbe.CodexLaunchShows | crates/local-deployment/src/writer_probe.rs:165-197 | a launch names a thread exactly with operands "resume" and an id and without --last; shows nothing exactly when its first operand is not "resume"; else is ambiguous |
| WriterProbe.UnreadableIsAmbiguous | crates/local-deployment/src/writer_probe.rs:145-176 | image options and unreadable argument vectors are ambiguous |
| WriterProbe.RenderedClaudeNames | crates/local-deployment/src/writer_probe.rs:55-100 | a Claude launch line names exactly what its session options name; other values and everything from the prompt on add nothing |
| WriterProbe.ClaudeLaunchShows | crates/local-deployment/src/writer_probe.rs:24-109 | started directly or by a shell or node, a launch shows nothing exactly without session options, and names a session exactly when all of them give that id |
| WriterProbe.NotClaudeIsAmbiguous | crates/local-deployment/src/writer_probe.rs:33-55 | any other program is ambiguous |
| WriterProbe.DanglingSession | crates/local-deployment/src/writer_probe.rs:60-63 | so is a session option without a value |
| WriterProbe.ResumeEvidence | crates/local-deployment/src/writer_probe.rs:24-109 | the Claude scan |
| WriterProbe.ScanClaudeOptions | crates/local-deployment/src/writer_probe.rs:55-100 | the scan of one argument vector |
| WriterProbe.CodexPositionals | crates/local-deployment/src/writer_probe.rs:140-160 | the Codex positional scan |
| WriterProbe.CodexResumeEvidence | crates/local-deployment/src/writer_probe.rs:165-197 | the Codex scan |
| WriterProbe.Decide | crates/local-deployment/src/writer_probe.rs:102-108 | the conclusion from ids and validity |
| Porcelain.StatusRoundTrip | crates/git/src/cli.rs:241-287 | parsing rendered well-formed entries returns them in order with both counts |
| Porcelain.OddFields | crates/git/src/cli.rs:246-261 | short fields are skipped, and a rename without an original path is still an entry |
| Porcelain.GetWorktreeStatus | crates/git/src/cli.rs:241-287 | the status parser, which sometimes consumes a second field |
| Porcelain.WorktreeRoundTripIff | crates/git/src/cli.rs:299-338 | parsing a rendered listing, with or without its last blank line, returns exactly the records with a HEAD and their own branches if and only if no branch leaks |
| Porcelain.ListingParses | crates/git/src/cli.rs:299-338 | what the parser makes of any well-formed listing, leaks included |
| Porcelain.NoBareBranchNoLeak | crates/git/src/cli.rs:306-315 | nothing leaks when records without HEAD have no branch |
| Porcelain.BranchCanLeak | crates/git/src/cli.rs:306-315 | a listing for which the parser reports a worktree on another's branch |
| Porcelain.ListingRead | crates/git/src/cli.rs:299-338 | parsing a written listing, whole |
| Porcelain.ListWorktrees | crates/git/src/cli.rs:299-338 | the worktree parser |
| SshConfig.FileIsLastWriteMap | crates/desktop-bridge/src/ssh_config.rs:66-86 | after any updates to an empty file it holds exactly one block per alias ever written, with its last port and key |
| SshConfig.FileInOrderOfLastUpdate | crates/desktop-bridge/src/ssh_config.rs:66-86 | and the blocks are exactly those of the last updates, in the order of those updates |
| SshConfig.UpdateReplacesBlock | crates/desktop-bridge/src/ssh_config.rs:173-200 | an update drops the alias's block, keeps all others with settings and order, and appends the new one |
| SshConfig.KeepReads | crates/desktop-bridge/src/ssh_config.rs:179-196 | skipping drops exactly the blocks of the alias |
| SshConfig.BlockExtent | crates/desktop-bridge/src/ssh_config.rs:179-196 | in any file exactly the Host line and the blank or indented lines after it go |
| SshConfig.BodyTellsPortAndKey | crates/desktop-bridge/src/ssh_config.rs:75-78 | port and key can be read back from a block |
| SshConfig.BodyIsFixed | crates/desktop-bridge/src/ssh_config.rs:75-78 | the other settings of a block |
| SshConfig.RepeatedUpdateAddsBlank | crates/desktop-bridge/src/ssh_config.rs:173-200 | repeating an update adds one blank line, every time |
| SshConfig.ReplaceHostBlock | crates/desktop-bridge/src/ssh_config.rs:173-200 | the rewriting loop |
| SshConfig.ConfigFile.UpdateSshConfig | crates/desktop-bridge/src/ssh_config.rs:66-86 | the file after an update |

## Left out

- Lowercasing (`str::to_lowercase`) and chrono's year range: the parsers start from lowercased text and instants are unbounded.
- Whether `canonical_variant_key` is idempotent, JSON encoding of profiles and `validate_merged`.
- Deletion of session rows or workspaces, and writes of `pending_cli_prompt` over a filled slot.
- tmux, /proc and git process calls, and parsing of `list-clients` and `list-panes` rows: their results are inputs.
- The sweep's grace for clients not seen before, stale client names and failure counters: they only skip or log a transition, and any transition may be skipped.
- Concurrent events of one client, and a client that gains a presence after a sweep has seen it without one.
- A frozen document restored at another of its own entries (`RestoreMirrorsIff` covers the observation itself), storage errors and the per-session storage key of the navigation script, and the messages it sends.
- `live_process_report`: it only selects between the two scans.
- Model-generated titles, process groups and pipes in title generation, and `slugify`.
- Atomic file replacement, key provisioning and the include line of the SSH config.
- `container.rs`, git wrappers, relay, embedded SSH, MCP and data declarations: orchestration or easy members.
