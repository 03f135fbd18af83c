# QManager front end: a verified model

A Dafny 4.11 model of the hard parts of the QManager web interface (TypeScript and React), with
proofs. `dafny verify dfyconfig.toml` checks everything. One module stands for one source file or for
one separable part of it; `Text` holds the string functions of JavaScript that several of them use.

- **Scenario schedules** (`ScenarioSchedule`, `ScheduleTimeline`). Weekly time windows with midnight
  wrap and first match wins. The direct resolver is the reference. The minute-by-minute scan, the
  painted day strip, the search on the strip and the editor's overlap test are methods proved against
  it, and lemmas show that they agree with each other.
- **Carrier strip** (`CarrierAggregation`, `SegmentShares`). Folding any history of poller snapshots
  gives one list that the history determines without any fold. Segment widths over the reals.
- **Event log** (`EventPresentation`). The one-pass accumulator equals a definition over pairs of rows.
- **Addresses** (`Ipv6`). Both input notations, in every spelling, become the form RFC 5952 recommends,
  and nothing is lost.
- **Language packs** (`UstarArchive`, `LangTrees`). A ustar reader takes the writer's archives apart
  again; reordering and stripping translation trees keep what they must keep.
- **Hooks as step machines** (`CellularSettings`, `WebConsole`, `ModemStatus`, `SmsInbox`,
  `SystemSettings`). Each has a `State`, an `Event` type, a `Step` function with an `Enabled` guard, and
  a class whose methods change fields as the hook's callbacks do and are proved equal to `Step`. Replies
  and timers come in any order; theorems are about every run (`Runs`, `After`).
- **Suggestions** (`BandLists`, `ProfileSuggestions`). Band lists, and a create with rollback against
  a backend that may refuse each call, or carry it out and lose the reply.

## Where the code departs from its comments

The model follows the code. Where a promise does not hold for all inputs, one lemma states exactly
when it does and another shows an input, or a run from the first state, on which it fails.

- `frontend/lib/scenario-schedule.ts:13` says `e <= s` wraps; equal times never match (line 66), see
  `MatchIsArc`.
- `frontend/lib/carrier-aggregation.ts:174-179` does not mark what it places: `UniqueIff`,
  `AlwaysUniqueIff`, `TwinCells`.
- `frontend/hooks/use-cellular-settings.ts:42` says the server cannot clobber an unsaved edit; an edit
  staged on a field whose own save is in flight is cleared by the reply: `UnsentLostIff`, `UnsentLostRun`.
  One set back to the modem's value meanwhile is not even staged, and gives way to the read-back:
  `LastChoiceShownIff`, `SetBackRun`.
- `frontend/hooks/use-cellular-settings.ts:332` does not refuse a second save, and the first to end
  clears the step ledger of both: `LedgerTrueIff`, `DarkLedgerRun`.
- `frontend/hooks/use-web-console.ts:413` defers the first connect; a manual reconnect that fails before it
  leaves a retry armed while "connecting": `MountedTimerAgreesIff`, `OvertakenRun`.
- `frontend/hooks/use-web-console.ts:232` calls a settled state terminal; an overtaken retry or the deferred
  connect still brings it back: `StaysSettledIff`, `ArmedWhileSettled`, `EndedThenConnects`.
- `frontend/hooks/use-modem-status.ts:251` sets the shared rate for every listener but restarts no timer:
  `RateAgreesIff`, `SkewedRun`.
- `frontend/hooks/use-sms.ts:138-141` returns before the queue is looked at: `BurstCostsOne`, `RefusedRun`.
- `frontend/hooks/use-system-settings.ts:105` says a late reply is dropped. The late success of a
  preferences save still issues a read that wipes the error line (`StaleReply`, `StaleWipeRun`). An older
  failed read leaves its error beside newer data (`ErrorShownIff`, `ErrorDependsOnOrder`). A saved schedule
  drops an older read though it brings no settings (`ReadDroppedIff`), so a page can end with none
  (`ReadDroppedRun`).
- `frontend/hooks/use-system-settings.ts:152-156` keeps a spinner from being stranded, not from stopping
  early over another request: `SpinnersTrueIff`, `EarlyStopRun`.
- `frontend/hooks/use-profile-suggestions.ts:303-305` says a failed save never leaves an orphan; it does when
  the deletion does not land: `FailureRestoresIff`, `OrphanLeft`.
- `frontend/hooks/use-profile-suggestions.ts:301` takes a null profile id for a profile that was not
  saved; when only its reply was lost, the rollback removes the scenario it is bound to: `StaysBoundIff`,
  `CutLoose`.

Two functions answer "when does the scenario change next?" and are meant to differ. The strip's answer is
shaped by today (`frontend/lib/schedule-timeline.ts:154-156`), the weekly scan's is not. `SameCaptionIff` says
exactly when they name the same time, and `TwoMorningsPart` is a schedule on which they do not.

## Model
| member | source | states |
|---|---|---|
| ScenarioSchedule.ParsesIffTimeText | frontend/lib/scenario-schedule.ts:30-37 | a value parses to a minute exactly when, trimmed, it is one or two digits below 24, a colon and two digits below 60 that denote it |
| ScenarioSchedule.DayMinute | frontend/lib/scenario-schedule.ts:43 | the double remainder is the minute of the day for every integer, negative ones too |
| ScenarioSchedule.FormatThenParse | frontend/lib/scenario-schedule.ts:30-47 | parsing a formatted minute gives the minute modulo a day |
| ScenarioSchedule.FormatShape | frontend/lib/scenario-schedule.ts:40-47 | a formatted time is two digits, a colon and two digits |
| ScenarioSchedule.MatchIsArc | frontend/lib/scenario-schedule.ts:53-68 | a block matches on its armed days on the clockwise arc from start to end; equal ends match nothing |
| ScenarioSchedule.EarliestMatch | frontend/lib/scenario-schedule.ts:82-83 | the resolver answers with the block of lowest matching index, or the fallback when none matches |
| ScenarioSchedule.ResolveMeans | frontend/lib/scenario-schedule.ts:73-84 | a disabled schedule is always the fallback; an enabled one the scenario of the first matching block, or the fallback |
| ScenarioSchedule.NextChangeAt | frontend/lib/scenario-schedule.ts:96-121 | on an enabled schedule, the label of the first minute within a week at which the resolved scenario differs; null when disabled or there is none |
| ScenarioSchedule.NullIffConstantWeek | frontend/lib/scenario-schedule.ts:86-95 | on an enabled schedule the answer is null iff every instant of the week resolves alike |
| ScenarioSchedule.FaultIffNeverMatches | frontend/lib/scenario-schedule.ts:157-175 | a block has a blocking error iff no weekday and minute ever matches it |
| ScenarioSchedule.FaultMeans | frontend/lib/scenario-schedule.ts:157-175 | which fault: a start that is no time, else an end that is none, else equal ends, else no day |
| ScenarioSchedule.BlockErrors | frontend/lib/scenario-schedule.ts:154-175 | errors are recorded for exactly the blocks that can never match, each with its first fault |
| ScenarioSchedule.OverlapIffClash | frontend/lib/scenario-schedule.ts:189-232 | the shared-day and interval tests hold iff some weekday and minute matches both blocks |
| ScenarioSchedule.ValidateSchedule | frontend/lib/scenario-schedule.ts:151-201 | an index is warned about, once, iff a different block matches at a common instant |
| ScenarioSchedule.OrderFreeIff | frontend/lib/scenario-schedule.ts:147-150 | every permutation of the blocks resolves alike at every instant iff clashing blocks name the same scenario |
| ScenarioSchedule.NoWarningsOrderFree | frontend/lib/scenario-schedule.ts:147-201 | with no warning reported, every permutation resolves alike at every instant |
| ScheduleTimeline.PaintBlock | frontend/lib/schedule-timeline.ts:123-125 | overwrites the minutes of the block's intervals and no other |
| ScheduleTimeline.PaintDay | frontend/lib/schedule-timeline.ts:117-127 | reverse painting leaves every minute of the day with its first match |
| ScheduleTimeline.CollapseRuns | frontend/lib/schedule-timeline.ts:129-144 | the runs tile the slots without gap, overlap or equal neighbours, with true scenario, length and live flag |
| ScheduleTimeline.BuildDayTimeline | frontend/lib/schedule-timeline.ts:105-147 | the segments are the strip of the resolver's answers for that weekday, enabled or not |
| ScheduleTimeline.StripUnique | frontend/lib/schedule-timeline.ts:35-40 | a day and an instant have exactly one strip |
| ScheduleTimeline.OneLive | frontend/lib/schedule-timeline.ts:61-62 | exactly one segment of a strip is live |
| ScheduleTimeline.LengthsTotal | frontend/lib/schedule-timeline.ts:35-37 | segment lengths add up to the whole day |
| ScheduleTimeline.NextScenarioChange | frontend/lib/schedule-timeline.ts:158-175 | for any segment list, the first segment after the first live one, going round once, with another scenario; null when there is none |
| ScheduleTimeline.StripChangeIsDayChange | frontend/lib/schedule-timeline.ts:149-175 | on a strip: null iff the day is constant, else the first later minute, past midnight if need be, that differs, and its scenario |
| ScheduleTimeline.SameCaptionIff | frontend/lib/schedule-timeline.ts:149-157 | at every instant of every schedule the weekly scan and the strip search name the same time iff the scenario still changes today, or never changes, or the first later day to depart from it does so at the minute today did |
| ScheduleTimeline.TwoMorningsPart | frontend/lib/schedule-timeline.ts:154-156 | a weekly schedule and an instant at which the strip says six and the scan five |
| ScheduleTimeline.ScanAgreesWithStrip | frontend/lib/schedule-timeline.ts:149-157 | with every block armed on all seven days the weekly scan and the strip search give the same answer at every instant |
| ScheduleTimeline.NothingArmedToday | frontend/lib/schedule-timeline.ts:154-156 | with nothing armed today the strip search is null, and the weekly scan is not iff another day departs from the fallback |
| CarrierAggregation.RolesHonest | frontend/lib/carrier-aggregation.ts:60-73 | primary iff the device says so; the NR anchor is the first NR carrier of an NSA link unless it is primary |
| CarrierAggregation.SameKeyIff | frontend/lib/carrier-aggregation.ts:51-53 | carriers share a key iff they agree in technology, band and channel, for bands without a dash |
| CarrierAggregation.LiveCarriers | frontend/lib/carrier-aggregation.ts:137-149 | the live map holds the keys of the snapshot, each with its last carrier, role and time |
| CarrierAggregation.NewCarriers | frontend/lib/carrier-aggregation.ts:173-179 | the last loop appends the unplaced carriers in snapshot order |
| CarrierAggregation.ReconcileCarriers | frontend/lib/carrier-aggregation.ts:131-182 | the loops compute the fold step that the lemmas below are about |
| CarrierAggregation.FoldShowsView | frontend/lib/carrier-aggregation.ts:123-182 | over every history at non-decreasing times, repeated keys included, the list shows exactly the keys last listed under 120 s ago, with their latest carrier, role and time, released iff that is at least 6 s old |
| CarrierAggregation.FoldIsView | frontend/lib/carrier-aggregation.ts:123-182 | with distinct keys in each snapshot it shows them in order of the poll and place at which they came on screen |
| CarrierAggregation.RowIsLastListing | frontend/lib/carrier-aggregation.ts:131-182 | over every history at non-decreasing times a row carries the carrier, the time and the role that the last poll listing its key gave it; it is released iff that is at least 6 s old, and never 120 s old |
| CarrierAggregation.RowIffListed | frontend/lib/carrier-aggregation.ts:131-182 | a key has a row iff some poll listed it, the last time under 120 s ago |
| CarrierAggregation.ViewUnique | frontend/lib/carrier-aggregation.ts:123-182 | a history determines that list completely |
| CarrierAggregation.SurvivorsKeepOrder | frontend/lib/carrier-aggregation.ts:154-157 | carriers that stay keep their relative order from poll to poll |
| CarrierAggregation.UniqueIff | frontend/lib/carrier-aggregation.ts:173-179 | the new list has no duplicate key iff every key listed twice was already on screen |
| CarrierAggregation.AlwaysUniqueIff | frontend/lib/carrier-aggregation.ts:131-182 | over every history, whatever its snapshots and times: no duplicate after any poll iff each repeated key was on screen before its poll |
| CarrierAggregation.TwinCells | frontend/lib/carrier-aggregation.ts:173-179 | a first poll with two cells of one key, which lists it twice |
| SegmentShares.SharesTotal | frontend/lib/carrier-aggregation.ts:89-107 | the shares of a non-empty list add up to 100 |
| SegmentShares.SharesProportional | frontend/lib/carrier-aggregation.ts:89-107 | with up to 14 segments and some bandwidth, widths are in proportion to the fraction of the bandwidth lifted to 0.07, which with the total fixes them |
| SegmentShares.UnliftedShare | frontend/lib/carrier-aggregation.ts:102-106 | where none needs lifting a segment is its fraction of the bandwidth |
| SegmentShares.WiderIsWider | frontend/lib/carrier-aggregation.ts:82-88 | a strictly wider carrier above the floor gets a strictly wider segment |
| SegmentShares.EqualWidths | frontend/lib/carrier-aggregation.ts:93-100 | from 15 segments on, or without bandwidth, all widths are equal |
| SegmentShares.SharesKeepOrder | frontend/lib/carrier-aggregation.ts:89-107 | a carrier at least as wide gets a segment at least as wide |
| SegmentShares.SharesLegible | frontend/lib/carrier-aggregation.ts:30-34 | with 1 to 14 segments each is at least 700/(93+7n) percent, above 3.5 |
| EventPresentation.ComputeUnresolved | frontend/lib/event-presentation.ts:109-146 | the one pass returns exactly the rows that report a condition which no later row settles |
| EventPresentation.TruncationKeeps | frontend/lib/event-presentation.ts:96-101 | cutting off old rows changes nothing for the rows kept |
| EventPresentation.NewerOnlyResolve | frontend/lib/event-presentation.ts:103-105 | after newer rows arrive a row stands iff it stood before and none of them settles it |
| EventPresentation.OnePerTypeAndSeverity | frontend/lib/event-presentation.ts:118-121 | at most one row per type and severity stands |
| EventPresentation.StandsIff | frontend/lib/event-presentation.ts:49-78 | a condition stands somewhere in the log iff some firing of it has no later recovery |
| EventPresentation.AgeRule | frontend/lib/event-presentation.ts:371-422 | a standing row is chromatic at every age; past an hour, exactly the standing rows are |
| EventPresentation.Pairing | frontend/lib/event-presentation.ts:54-78 | the recoveries by name, and the three kinds that settle themselves |
| EventPresentation.DrawnAs | frontend/lib/event-presentation.ts:371-422 | tone by severity, and good news by name; coloured iff under an hour old or standing, and not routine; the word of a standing row |
| Ipv6.PairOctets | frontend/lib/ipv6.ts:44-46 | for octets the shift and or is hi * 256 + lo |
| Ipv6.ReadGroups | frontend/lib/ipv6.ts:36-64 | the groups read from either notation, with `::` expanded |
| Ipv6.FindZeroRun | frontend/lib/ipv6.ts:66-87 | the scan finds the longest run of zero groups, the first among equals |
| Ipv6.WriteGroups | frontend/lib/ipv6.ts:89-99 | the run of two or more is written as `::`, the rest joined by colons |
| Ipv6.CompressIPv6 | frontend/lib/ipv6.ts:33-100 | the whole function on every text: dash, unchanged, error for too many groups, or the compressed groups |
| Ipv6.PlainTextUnchanged | frontend/lib/ipv6.ts:33-63 | nothing is shown as a dash; a text without a colon that is not sixteen octets joined by dots comes back unchanged |
| Ipv6.ThrowsIff | frontend/lib/ipv6.ts:48-55 | a text throws iff it has exactly one `::` and more than eight groups around it |
| Ipv6.ColonTextRead | frontend/lib/ipv6.ts:56-60 | any other text with a colon is read as the groups between its colons |
| Ipv6.GroupRead | frontend/lib/ipv6.ts:60 | a group is read up to its first character that is no hexadecimal digit, and as zero when it has none |
| Ipv6.ReadBack | frontend/lib/ipv6.ts:36-64 | the dotted form and every colon form of an address are read as its eight groups in shortest lower-case hex |
| Ipv6.CompressesToRfc5952 | frontend/lib/ipv6.ts:23-32 | every form of an address compresses to its form by sections 4.1 to 4.3 of RFC 5952 |
| Ipv6.Rfc5952Unique | frontend/lib/ipv6.ts:66 | an address has one such form |
| Ipv6.Rfc5952IsColonForm | frontend/lib/ipv6.ts:89-99 | that form is itself a colon form of the address |
| Ipv6.DenotesOne | frontend/lib/ipv6.ts:36-64 | a text denotes at most one address, so the form parses back |
| Ipv6.CompressIdempotent | frontend/lib/ipv6.ts:33-100 | compressing again changes nothing |
| Ipv6.SameTextIffSameAddress | frontend/lib/ipv6.ts:33-100 | two texts compress alike iff they denote the same address |
| Ipv6.GroupTextMinimal | frontend/lib/ipv6.ts:46-60 | a group has at most four characters, no leading zero and no capital |
| UstarArchive.WriteOctal | frontend/scripts-dev/lang.ts:383-386 | writes the digits and a NUL into its field and nothing outside it |
| UstarArchive.OctalFieldReads | frontend/scripts-dev/lang.ts:383-386 | a field is octal digits and a NUL, and reads back as the value modulo the power of eight that fits |
| UstarArchive.TarHeader | frontend/scripts-dev/lang.ts:388-404 | the buffer ends as the header with every field in place and the checksum of the blanked header |
| UstarArchive.HeaderReads | frontend/scripts-dev/lang.ts:388-404 | every header verifies under the reader; name back iff it fits without a NUL, cut when too long, size modulo 8^11, mode 0644, owner and time zero, unused fields zero |
| UstarArchive.MakeTar | frontend/scripts-dev/lang.ts:406-417 | the chunks joined are the archive of the members |
| UstarArchive.MemberLayout | frontend/scripts-dev/lang.ts:408-414 | a member is header, content and zeros up to whole blocks |
| UstarArchive.ArchiveLength | frontend/scripts-dev/lang.ts:412-415 | the archive is a whole number of blocks |
| UstarArchive.ArchiveEnds | frontend/scripts-dev/lang.ts:415 | its last two blocks are zero |
| UstarArchive.RoundTripIff | frontend/scripts-dev/lang.ts:378-417 | the reader returns exactly the members in order iff names fit without NUL and sizes are below 8^11 |
| LangTrees.ReorderKeepsPaths | frontend/scripts-dev/lang.ts:103-121 | reordering keeps what is found at every path |
| LangTrees.ReorderField | frontend/scripts-dev/lang.ts:114-119 | each shared key is reordered below itself, each extra is kept as it was |
| LangTrees.ReorderRest | frontend/scripts-dev/lang.ts:110-111 | where base or target is no object the target stays as it is |
| LangTrees.ReorderKeyOrder | frontend/scripts-dev/lang.ts:103-121 | shared keys in the base's order, then extras in their own |
| LangTrees.ReorderIdempotent | frontend/scripts-dev/lang.ts:109-121 | reordering again changes nothing |
| LangTrees.StripAt | frontend/scripts-dev/lang.ts:355-367 | below the root stripping removes blank strings and objects left empty, and nothing else |
| LangTrees.StripKeyOrder | frontend/scripts-dev/lang.ts:357-365 | what is left keeps the order of its keys |
| LangTrees.BlankIff | frontend/scripts-dev/lang.ts:360 | a string is blank iff it is nothing but white space |
| Text.TrimParts | frontend/scripts-dev/lang.ts:360 | trimming takes white space off both ends, all of it, and nothing else |
| Text.TrimUnique | frontend/scripts-dev/lang.ts:360 | and only the trimmed text fits that |
| Text.SpaceCodes | frontend/scripts-dev/lang.ts:360 | the white space of the language, by code |
| LangTrees.ObjectSurvivesIff | frontend/scripts-dev/lang.ts:361-364 | an object survives iff a non-blank string or an array lies below it |
| LangTrees.StripKeepsShown | frontend/scripts-dev/lang.ts:354 | after English fallback every path shows what treating blanks as missing shows |
| LangTrees.StripIdempotent | frontend/scripts-dev/lang.ts:355-367 | stripping again changes nothing |
| LangTrees.SkeletonAt | frontend/scripts-dev/lang.ts:94-101 | at every path a skeleton has the paths of the English tree, every string replaced by the filler |
| LangTrees.SkeletonIsFilled | frontend/scripts-dev/lang.ts:94-101 | a skeleton is the English tree key by key and item by item, with the filler for every string |
| LangTrees.SkeletonShipsNothing | frontend/scripts-dev/lang.ts:94-101 | stripping a blank skeleton leaves the empty object iff the tree has no array |
| CellularSettings.PrunePending | frontend/hooks/use-cellular-settings.ts:143-163 | drops exactly the staged values the server now reports |
| CellularSettings.Form.SetField | frontend/hooks/use-cellular-settings.ts:230-247 | stages a value; the server's own value clears the field |
| CellularSettings.Form.ReadReplied | frontend/hooks/use-cellular-settings.ts:203-302 | a good read replaces the snapshot and prunes; a bad one only sets the error |
| CellularSettings.Form.Save | frontend/hooks/use-cellular-settings.ts:332-391 | an empty patch is a no-op result; otherwise the patch is sent and the ledger starts |
| CellularSettings.Form.SaveReplied | frontend/hooks/use-cellular-settings.ts:394-462 | clears the applied fields, records the result, then settles, reads back or ends |
| CellularSettings.Form.ReadBackReplied | frontend/hooks/use-cellular-settings.ts:448-469 | the read-back is applied, a failure message is put back, the save ends |
| CellularSettings.RunsStayClean | frontend/hooks/use-cellular-settings.ts:194-209 | in every reachable state no staged value equals the server's |
| CellularSettings.ChangeCountIsDifference | frontend/hooks/use-cellular-settings.ts:214-228 | the counted fields are exactly those where draft and snapshot differ |
| CellularSettings.ReadKeepsDirty | frontend/hooks/use-cellular-settings.ts:38-42 | a read never changes what a dirty field shows, and every other field tracks the modem |
| CellularSettings.SaveClearsReported | frontend/hooks/use-cellular-settings.ts:415-423 | a reply removes exactly the fields it names as applied, or without a list those sent, if it succeeded |
| CellularSettings.AppliedIff | frontend/hooks/use-cellular-settings.ts:397-406 | a field is applied iff named in the applied list, or without a list iff sent and the save succeeded; failed iff named, or without a list iff sent and not applied |
| CellularSettings.AnsweredSave | frontend/hooks/use-cellular-settings.ts:394-450 | the ledger keeps applied, failed, success and message of the reply; eight, three or no seconds to settle by what was sent |
| CellularSettings.ThrownSave | frontend/hooks/use-cellular-settings.ts:455-469 | a save that throws applies nothing, fails all, shows its message and ends |
| CellularSettings.SaveSends | frontend/hooks/use-cellular-settings.ts:332-391 | a save sends the whole patch, an empty one nothing |
| CellularSettings.DiscardShowsModem | frontend/hooks/use-cellular-settings.ts:249-251 | after discarding every field shows the modem |
| CellularSettings.ReadShows | frontend/hooks/use-cellular-settings.ts:256-302 | error line, spinner and snapshot through a read |
| CellularSettings.ReadBackShows | frontend/hooks/use-cellular-settings.ts:435-453 | error line, stage and snapshot through the read-back |
| CellularSettings.UnmountedIgnores | frontend/hooks/use-cellular-settings.ts:394-469 | after the unmount a reply changes nothing shown |
| CellularSettings.EditSurvives | frontend/hooks/use-cellular-settings.ts:27-42 | over every run an edit ends only by the user's hand, a reply reporting its field, or a snapshot that agrees with it |
| CellularSettings.UnsentLostIff | frontend/hooks/use-cellular-settings.ts:417-423 | a reply drops an edit that was not sent iff it reports that field as applied |
| CellularSettings.UnsentLostRun | frontend/hooks/use-cellular-settings.ts:417-423 | a run from the first state that loses one: set, save, set again, reply |
| CellularSettings.LastChoiceShownIff | frontend/hooks/use-cellular-settings.ts:203-251 | over every run after the user's last choice for a field, staged or back to the server's value, the form shows it iff it was never lost to a reply or a snapshot, or a snapshot brought it back since |
| CellularSettings.SetBackRun | frontend/hooks/use-cellular-settings.ts:230-247 | a run from the first screen in which a value set back during its own save is shown after all |
| CellularSettings.ResultAccounts | frontend/hooks/use-cellular-settings.ts:399-413 | success iff no message; without lists, every attempted field is applied or failed and not both |
| CellularSettings.FailureMessageStays | frontend/hooks/use-cellular-settings.ts:450-453 | the message of a partly failed save survives the read-back, whatever that brings |
| CellularSettings.LedgerTrueIff | frontend/hooks/use-cellular-settings.ts:332-469 | over every run, with any number of saves out, "saving" is shown iff a save is in flight and the stage and settle time are those of one, throughout, iff no save ends while another is in flight |
| CellularSettings.DarkLedgerRun | frontend/hooks/use-cellular-settings.ts:332-469 | a run with two saves out after which one is in flight and the ledger is idle |
| CellularSettings.LedgerIsTrue | frontend/hooks/use-cellular-settings.ts:332-469 | over every run at most one save is in flight throughout iff none with staged edits starts beside another, and then saving flag, stage and settle time are those of the one in flight throughout |
| WebConsole.Console.OnOpen | frontend/hooks/use-web-console.ts:264-272 | an opened socket resets the failure count and the backoff |
| WebConsole.Console.OnCloseEvent | frontend/hooks/use-web-console.ts:320-364 | the close is classified, then the hook settles or schedules a retry |
| WebConsole.Console.Schedule | frontend/hooks/use-web-console.ts:213-230 | replaces the retry timer and doubles the backoff up to the cap |
| WebConsole.Console.ReconnectNow | frontend/hooks/use-web-console.ts:388-394 | clears the timer, resets the bookkeeping and connects |
| WebConsole.Console.DisconnectNow | frontend/hooks/use-web-console.ts:396-406 | drops timer and socket and settles as ended |
| WebConsole.RunsKeepInv | frontend/hooks/use-web-console.ts:213-425 | the machine's invariant in every state of every run |
| WebConsole.MountedRuns | frontend/hooks/use-web-console.ts:213-425 | in every run of a mount: failure shown iff settled, at most one timer, no delay above 4 s, "unreachable" only if every opening was followed by a manual reconnect |
| WebConsole.CloseVerdict | frontend/hooks/use-web-console.ts:320-364 | the verdict of every close by its code, the time since the opening and the failures before: ended, refused, dropped, unreachable, or a retry after the current delay, which doubles up to 10 s |
| WebConsole.ConnectsAfresh | frontend/hooks/use-web-console.ts:246-262 | a connect by timer, mount or user waits for a new socket with no failure shown; the user's starts the count and the delay anew |
| WebConsole.OpensClean | frontend/hooks/use-web-console.ts:264-272 | an opening connects, is remembered, and starts the count and the delay anew |
| WebConsole.DisconnectEnds | frontend/hooks/use-web-console.ts:396-406 | a disconnect by the user shows an ended session with no socket and no timer |
| WebConsole.UnmountStops | frontend/hooks/use-web-console.ts:416-425 | nothing is left running after the unmount |
| WebConsole.FailingMount | frontend/hooks/use-web-console.ts:44-51 | three attempts from the mount that never open: delays of 1 s and 2 s, then unreachable, or dropped with the link down |
| WebConsole.TimerAgreesIff | frontend/hooks/use-web-console.ts:213-425 | a timer is armed iff "reconnecting" throughout a run, exactly when the deferred connect does not run while a retry is scheduled |
| WebConsole.MountedTimerAgreesIff | frontend/hooks/use-web-console.ts:410-416 | the same from the mount |
| WebConsole.OvertakenRun | frontend/hooks/use-web-console.ts:410-416 | a run in which it does, and a retry stays armed while "connecting" |
| WebConsole.GivesUp | frontend/hooks/use-web-console.ts:346-363 | from every reachable state each retry made without help uses up one of the retries left |
| WebConsole.ClosesBounded | frontend/hooks/use-web-console.ts:320-364 | without help every close is paid for by a retry, the socket first out or the deferred connect |
| WebConsole.IdleIsSettled | frontend/hooks/use-web-console.ts:346-364 | a mounted console that waits for no socket, timer or deferred connect has settled |
| WebConsole.SettlesInTime | frontend/hooks/use-web-console.ts:48-51 | from every reachable state, a run without an opening and without a manual reconnect makes at most three minus the count retries (one, where a retry was overtaken), with a bound on its closes; where it cannot go on, or has used its retries and closed its socket, the console has settled |
| WebConsole.MountGivesUp | frontend/hooks/use-web-console.ts:346-363 | from the mount: at most two retries and three closes, then the console has settled |
| WebConsole.StaysSettledIff | frontend/hooks/use-web-console.ts:232 | a settled console stays settled over every run without a manual reconnect iff no retry is armed and no connect deferred |
| WebConsole.ArmedWhileSettled | frontend/hooks/use-web-console.ts:410-416 | a run from the mount that settles with a retry armed, which then connects |
| WebConsole.EndedThenConnects | frontend/hooks/use-web-console.ts:396-416 | a run in which the user disconnects and the deferred connect connects after all |
| ModemStatus.Feed.Subscribe | frontend/hooks/use-modem-status.ts:247-282 | the first listener of a visible page fetches, opens the stream and polls |
| ModemStatus.Feed.Unsubscribe | frontend/hooks/use-modem-status.ts:284-297 | the last listener stops stream, timer and subscriptions |
| ModemStatus.Feed.HandleVisibilityChange | frontend/hooks/use-modem-status.ts:227-239 | a hidden page stops both, a visible one starts afresh |
| ModemStatus.Feed.ConnectSse | frontend/hooks/use-modem-status.ts:154-217 | replaces the stream, or polls when opening it throws |
| ModemStatus.Feed.OnStreamError | frontend/hooks/use-modem-status.ts:202-212 | drops the stream, alternates the endpoint and polls |
| ModemStatus.Feed.OnRateChange | frontend/hooks/use-modem-status.ts:264-271 | a new rate restarts a running timer |
| ModemStatus.RunsKeepInv | frontend/hooks/use-modem-status.ts:80-298 | the module's invariant over every interleaving |
| ModemStatus.PageRuns | frontend/hooks/use-modem-status.ts:80-298 | at most one stream, one timer and one request; a connected stream means no timer; hidden or unheard pages have neither; a visible heard page has a timer or a connected stream |
| ModemStatus.GetsIff | frontend/hooks/use-modem-status.ts:98-146 | a status request goes out iff none is out and a visible tick, a refresh, a first visible listener or a return to view asks for it |
| ModemStatus.StepRecords | frontend/hooks/use-modem-status.ts:247-271 | who listens, whether the page is hidden, and the shared rate after each step |
| ModemStatus.OpenConnects | frontend/hooks/use-modem-status.ts:169-173 | an opened stream counts as connected and stops the timer |
| ModemStatus.StartsUnconnected | frontend/hooks/use-modem-status.ts:154-217 | a starting or returning page counts as unconnected until its stream opens |
| ModemStatus.PollsAfterErrorIff | frontend/hooks/use-modem-status.ts:202-239 | after a stream error the endpoint alternates and the page polls, and no stream exists throughout a run iff it contains no first listener of a visible page and no return to view that opens one |
| ModemStatus.RateAgreesIff | frontend/hooks/use-modem-status.ts:136-145 | the timer ticks at the shared rate throughout a run iff no further listener asks for another rate while polling |
| ModemStatus.SkewedRun | frontend/hooks/use-modem-status.ts:251 | a run from a fresh page in which the timer keeps the first rate and the shared rate is the second listener's |
| ModemStatus.RateChangeRepairs | frontend/hooks/use-modem-status.ts:264-271 | a rate change brings timer and shared rate together |
| SmsInbox.Hook.FetchInbox | frontend/hooks/use-sms.ts:116-127 | a request during a GET is only remembered, any other begins one |
| SmsInbox.Hook.Settle | frontend/hooks/use-sms.ts:129-163 | a reply is shown while mounted, the guard and the spinners are released, and a refused one stops there |
| SmsInbox.Hook.Landed | frontend/hooks/use-sms.ts:129-170 | a reply releases the guard, is shown while mounted, and unless refused drains the queue |
| SmsInbox.RunsKeepInv | frontend/hooks/use-sms.ts:87-170 | the hook's invariant over every run |
| SmsInbox.PageRuns | frontend/hooks/use-sms.ts:87-170 | at most one GET is out, each has a request of its own, an unanswered request is queued, the spinners are true |
| SmsInbox.RequestBegins | frontend/hooks/use-sms.ts:116-127 | a request begins a GET as silent as asked with a clear error line, or is remembered |
| SmsInbox.ReplyShows | frontend/hooks/use-sms.ts:129-170 | rows and time of an inbox, or the words of a refusal or a throw, and the silent GET of a remembered request |
| SmsInbox.ErrorShownIff | frontend/hooks/use-sms.ts:124-152 | over every run the error line shows some words iff the last failure said them and no GET began since, or they stood undisturbed |
| SmsInbox.MountsAndUnmounts | frontend/hooks/use-sms.ts:152-170 | a mount asks for the inbox; unmounted, a landing GET only releases the guard |
| SmsInbox.BurstCostsOne | frontend/hooks/use-sms.ts:96-101 | a burst during one GET costs one further GET, begun after all of it, unless the reply is refused, which leaves it queued |
| SmsInbox.RefusedRun | frontend/hooks/use-sms.ts:138-141 | a run from the mount that leaves a request queued with no GET out |
| SmsInbox.StaysQueued | frontend/hooks/use-sms.ts:138-141 | a queued request stays queued until a reply that is not refused lands while mounted |
| SmsInbox.DrainAnswersAll | frontend/hooks/use-sms.ts:166-169 | that reply is followed at once by a GET begun after every request made so far |
| SmsInbox.RowsAreLastInbox | frontend/hooks/use-sms.ts:33-37 | the rows and their time are those of the last delivered inbox, through any errors since |
| SystemSettings.Hook.ReadReplied | frontend/hooks/use-system-settings.ts:125-158 | a newer read is applied or shows its error; an older one only stops its spinner |
| SystemSettings.Hook.SaveReplied | frontend/hooks/use-system-settings.ts:187-235 | a newer schedule is applied; a preferences save goes on to a silent read |
| SystemSettings.NoSpinnerStranded | frontend/hooks/use-system-settings.ts:152-156 | in every run from the mount "loading" implies that a visible read is out, "saving" a save or the read that follows it, and an idle wire neither |
| SystemSettings.SpinnersTrueIff | frontend/hooks/use-system-settings.ts:152-156 | the spinners turn iff such a request is out, throughout a run, iff no landing stops one while another of its kind is out |
| SystemSettings.MountedSpinnersTrueIff | frontend/hooks/use-system-settings.ts:116-156 | the same from the mount |
| SystemSettings.EarlyStopRun | frontend/hooks/use-system-settings.ts:154-156 | a run from the mount that ends with a visible read out and no spinner |
| SystemSettings.AppliedRises | frontend/hooks/use-system-settings.ts:105-108 | the applied number never falls |
| SystemSettings.StaleReply | frontend/hooks/use-system-settings.ts:133-134 | an older reply changes neither settings nor schedule, and the error line iff it is the success of a preferences save |
| SystemSettings.Shielded | frontend/hooks/use-system-settings.ts:105-108 | applied data survive every run whose replies are no newer |
| SystemSettings.NewestGoodReadWins | frontend/hooks/use-system-settings.ts:105-158 | in every order of arrival, when the newest reply is a good read, the settings and schedule end as it gave them |
| SystemSettings.AppliedIsGreatest | frontend/hooks/use-system-settings.ts:133-135 | the applied number is the greatest of the reads and schedules that landed while mounted |
| SystemSettings.ReadDroppedIff | frontend/hooks/use-system-settings.ts:133-143 | after any run from the mount a good read's data are dropped iff unmounted or a read or schedule of a greater number has landed |
| SystemSettings.SettingsAfter | frontend/hooks/use-system-settings.ts:133-143 | after any run the settings are those of the last good read that was newest when it landed |
| SystemSettings.ScheduleAfter | frontend/hooks/use-system-settings.ts:143-203 | after any run the schedule is the last one brought by a read or a save that was newest when it landed |
| SystemSettings.IssueShows | frontend/hooks/use-system-settings.ts:117-120 | what issuing a read or a save changes |
| SystemSettings.LandingSends | frontend/hooks/use-system-settings.ts:209-218 | a preferences save that succeeds is followed by a silent read, and no other landing sends anything |
| SystemSettings.UnmountedDrops | frontend/hooks/use-system-settings.ts:132-148 | after the unmount a reply changes nothing shown |
| SystemSettings.ReadDroppedRun | frontend/hooks/use-system-settings.ts:198-203 | a run from the mount that ends with no settings, no spinner, no error and nothing out, because a schedule was saved |
| SystemSettings.StepError | frontend/hooks/use-system-settings.ts:120-151 | the words of the error line after each step |
| SystemSettings.ErrorShownIff | frontend/hooks/use-system-settings.ts:120-151 | over every run an error shows iff a read that was newest on landing failed since the last read was issued, or one stood and no read was issued |
| SystemSettings.ErrorDependsOnOrder | frontend/hooks/use-system-settings.ts:120-151 | two runs from the mount that differ in the order of two replies, and end alike but for the error |
| SystemSettings.StaleWipeRun | frontend/hooks/use-system-settings.ts:209-218 | a run from the mount in which a stale save's success wipes a newer error |
| BandLists.ParseBandList | frontend/hooks/use-profile-suggestions.ts:52-60 | the positive numbers some part reads as, each once, ascending |
| BandLists.PartsGiveBands | frontend/hooks/use-profile-suggestions.ts:52-60 | the list of parts joined by colons is the positive numbers they read as |
| BandLists.PartReads | frontend/hooks/use-profile-suggestions.ts:55-57 | a part reads as its leading digits, past white space and a sign |
| BandLists.PartSkipped | frontend/hooks/use-profile-suggestions.ts:55-57 | a part without leading digits reads as nothing |
| BandLists.BandListUnique | frontend/hooks/use-profile-suggestions.ts:52-60 | a text has one such list |
| BandLists.PrintThenParse | frontend/hooks/use-profile-suggestions.ts:52-65 | parsing the printed form of any positive bands gives them ascending without repeats |
| BandLists.PrintsAscending | frontend/hooks/use-profile-suggestions.ts:62-65 | the printed text is the bands in decimal, ascending, each as often as given |
| BandLists.IntersectSupported | frontend/hooks/use-profile-suggestions.ts:76-84 | exactly the recommended bands the modem lists, ascending; none when it lists nothing |
| ProfileSuggestions.Suggestions.CreateFromSuggestion | frontend/hooks/use-profile-suggestions.ts:194-336 | for every pattern of replies the method leaves backend, result and error as the transaction does |
| ProfileSuggestions.CallsDuringACall | frontend/hooks/use-profile-suggestions.ts:194-198 | with any number of further calls between its replies, a call ends as the transaction does |
| ProfileSuggestions.CallOrder | frontend/hooks/use-profile-suggestions.ts:224-326 | at most four calls; a scenario is stored only after a listing, the profile saved at most once, a deletion comes last and right after saving the profile bound to it |
| ProfileSuggestions.DeletesOnlyOwn | frontend/hooks/use-profile-suggestions.ts:203-205 | only a scenario created in this call is deleted |
| ProfileSuggestions.NoBandsNoScenario | frontend/hooks/use-profile-suggestions.ts:207-222 | with no surviving band no scenario is touched and the built-in is bound |
| ProfileSuggestions.BindsExisting | frontend/hooks/use-profile-suggestions.ts:189-192 | the profile is saved bound to the built-in or to a scenario that exists then |
| ProfileSuggestions.ReusesByName | frontend/hooks/use-profile-suggestions.ts:229-245 | when the listing shows the wanted name the profile is saved bound to the first scenario of that name, and none is stored |
| ProfileSuggestions.StoresByName | frontend/hooks/use-profile-suggestions.ts:246-298 | otherwise one is stored under the wanted name with the surviving bands and the profile bound to it; with no id the call ends with the backend's words |
| ProfileSuggestions.BindsBuiltIn | frontend/hooks/use-profile-suggestions.ts:219-227 | without a name or a band the built-in is bound and no scenario touched |
| ProfileSuggestions.ScenariosAfter | frontend/hooks/use-profile-suggestions.ts:303-318 | the scenario set afterwards: as found, or with the one new scenario the rollback did not remove |
| ProfileSuggestions.FailureRestoresIff | frontend/hooks/use-profile-suggestions.ts:303-318 | a call without a profile leaves the set as found iff it created none, or knew the one it created and the deletion landed |
| ProfileSuggestions.OrphanLeft | frontend/hooks/use-profile-suggestions.ts:301-318 | an empty backend and replies after which no profile exists and the new scenario stays |
| ProfileSuggestions.StaysBoundIff | frontend/hooks/use-profile-suggestions.ts:301-318 | every profile stays bound unless the profile was stored, its reply lost, and its new scenario deleted |
| ProfileSuggestions.CutLoose | frontend/hooks/use-profile-suggestions.ts:301-318 | an empty backend and replies that leave a profile bound to a deleted scenario |
| ProfileSuggestions.CreatedLocksBands | frontend/hooks/use-profile-suggestions.ts:215-222 | a created scenario locks at least one band, and its texts read back as the surviving bands |

## Left out

- ScenarioSchedule.NextChangeAt: instants are minutes of a seven-day cycle; daylight saving, seconds and real dates are not modelled.
- SegmentShares.ComputeSegmentShares: over the reals, without floating-point rounding.
- CarrierAggregation.ReconcileCarriers: of the radio readings only PCI and RSRP are carried along; the others ride along unchanged in the source in the same way.
- EventPresentation.PresentEvent: glyphs, class names and the second ground are not modelled.
- Ipv6.CompressIPv6: hexadecimal groups so long that a double rounds them are read exactly.
- BandLists.ParseBandList: numbers beyond 2^53 are read exactly.
- UstarArchive.TarHeader: names are given as their UTF-8 bytes; a name over 100 bytes is cut at byte 100, the source cuts before a split character.
- LangTrees.ReorderLike: JavaScript's own order of integer-like keys and names found on `Object.prototype` are not modelled.
- CellularSettings.Form.ReadReplied: the AMBR and dual-slot readings that ride along with a snapshot are not modelled.
- WebConsole.Console.OnOpen: terminal wiring, the handshake and message bytes are not modelled.
- ModemStatus.Feed.OnGetLanded: the status data, its staleness and the listeners' copies are not modelled.
- ProfileSuggestions.Suggestions.CreateFromSuggestion: nobody else changes the backend's scenarios during the call; new scenarios get fresh ids, where `backend/internal/api/handlers/scenarios.go:187` numbers them by the second; the profile's other fields are not modelled.
- A render follows each state change at once; batching and effect timing of React are not modelled.
- `authFetch`, HTTP status handling, cookies, toasts and translations: a reply is a value that says how the call ended.
- Reading the clock and the browser's online state: parameters of the steps.
- gzip, hashing, files and publishing in `lang.ts`; `compareLang`, `flatten` and `loadNs` are not part of this model.
- Sending and deleting messages in `use-sms.ts`: each ends in a request for the inbox, which is modelled.
- Glyphs, disc and CSS classes, message splitting, `rsrpToPercent`, `summarise`, `decToHex`, `groupDays` and client keys: tables and one-line functions.
- The choice of suggestions by carrier and SIM, and the remaining fetch-and-save hooks.
