# A verified model of the shell's calendar, capture and event-loop cores

This project models nine algorithmic parts of the desktop shell in Dafny and proves what they are for.
`dafny verify dfyconfig.toml` checks all of it.

**Calendar reminders.** `ReminderPlanner` is the planner: it scans the events inside a binary-searched
window, orders and collapses what is due, and computes the next wake. `ReminderMonitor` is the stateful
driver around it, a class whose `Evaluate` prunes, fires, records and re-arms.
`ReminderRuns` states what the two guarantee over whole runs, restarts included: no reminder is notified
twice although fired keys are pruned while their events are still in the window, no reminder is lost or
late, and the digest is shown at most once a day. `ReminderLaws` says which reminders an event has, which of
them a plan holds and when it wakes, in terms of the events, the configuration and the fired keys alone. `ReminderKeys`, `DecimalText`, `Countdown` and
`ReminderLeads` are the key codec, the countdown label and the lead lists. Time is counted in nanosecond
ticks; event starts and leads are whole seconds.

While the shell runs, the at-most-once promise has two exceptions, and `ReminderRepeats` shows that both are real. The header
comment at `src/calendar/calendar_reminders.h:114` says keys are erased once an event started *more than*
the grace ago, while the code (`src/calendar/calendar_reminders.cpp:289`) erases them at exactly that
instant. The model follows the code: `RepeatsOnlyAtBoundary` shows that a recorded reminder is planned
again if and only if it has lead zero and the pass runs at exactly that instant, and for every event whose
only reminder is at its start `BoundaryInstantRepeats` is a run that notifies it twice. Events that share a
key but not a title are announced separately: `NotifiesTwiceIff` says exactly when a key notifies twice
within a pass, and `TwoTitlesPass` is such a pass for any two events of this kind. `AtMostOnce` assumes
neither among the items due in a pass, nothing of the rest of the snapshot. `PersistedKeys` is the text the
fired keys are persisted as, and `ReminderRestarts` what a restart from it does to a run: nothing, as long
as every key is one line. A key with a line break in the event's identity is forgotten, so its reminder
repeats (`RepeatsAfterRestartIff`), and it may bring back the key of another event (`BreakLoadsAnotherKey`).

**Calendar refresh.** `RefreshProtocol` is the asynchronous fan-out and fan-in as a state machine: what an
operation waits for is one element of a multiset of callbacks, and a step delivers any of them, in any
order, synchronously or later, each once; configuration reloads and cache loads may come at any time.
`RefreshResults` says what a refresh leaves every account with. A cache load does not ask whether a
refresh is running (`src/calendar/calendar_service.cpp:1453`), so it discards the accounts that have
already reported, and `accountDone` does not ask whether calendars are still enabled: `OwnReportIff` and
`DisabledButValidIff` are the exact conditions, `ReportIsDiscarded` and `DisabledServiceShowsEvents` runs.
`AccountReports` says what each kind of account reports, in terms of all that its operations have answered.
`CalendarService` is the class whose handlers implement the protocol's steps field by field.
`CachePersistence` is the encrypted cache beside the plaintext one it replaces, against any outcome of
every I/O call; `CacheText` is what is written to it and read from it; `CalendarCache` joins service and
cache. A load reads at most 32 MiB (`src/calendar/calendar_service.cpp:44`) while a save writes texts of
any length, so the events a refresh ended with come back, after any number of restarts, if and only if
their text is no longer than that (`SavedEventsComeBackIff`); a longer one, once the shell has been
restarted, locks the cache until recovery (`LongTextLocksOut`).

**Blur.** `BoxBlur` is the sliding-window box blur over packed 32-bit pixels with its fixed-point
division, `Tracks` and `Grid` the line and cell addressing it uses. `BlurCache` is the four-slot cache in
front of it, `RecentlyUsed` the order of use it is compared with.

**Orientation and cursor.** `Orientation` defines the eight output transforms as maps on pixels and proves
that they form the symmetry group of the rectangle; `ImageTurns` holds the loops that realise them in
place or into a new buffer. `CursorOverlay` rewrites the cursor's hotspot and blends the cursor into a
screenshot.

**Annotations.** `AnnotationDocument` is the document class, `AnnotationHistory` its values and
`AnnotationTimeline` the theorem that its two bounded stacks are one timeline with a cursor. Escaping a
crop drag discards an interaction although none was begun: `CropEscapeKeepsTimelineIff` shows that this is
harmless exactly if there is nothing to undo, and `CropEscapeRevertsGesture` that it otherwise takes back
the last gesture for good while the crop stays; `CropEscapeLosesAStroke` is a run from the empty document.

**Main loop.** `MainLoop` arms a deadline per poll source, chooses the poll timeout and dispatches what
woke; `DeadlineHistory` says what the stored deadlines mean and `DeadlineRuns` what every source is
guaranteed over whole runs.

**Recurrence.** `Recurrence` says what the instances of a recurring event are (sections 3.8.4.4, 3.8.5.2
and 3.8.5.3 of RFC 5545); `ICalExpansion` computes them under a shared work budget and a stop token, over
rule iterators that may never end. `RecurrenceLaws` says where instances stand and end, in terms of rules,
RDATEs and duration alone.

**Links.** `EventLink` finds the link an event offers and shows that it survives a save and a load;
`LinkLaws` says which characters of a text make up its link.

## Model

| member | source | states |
|---|---|---|
| `DecimalText.FromCharsOfDecimal` | `src/calendar/calendar_reminders.cpp:67-89` | the digits written for a 64-bit second count, with its sign, are read back as the same number |
| `DecimalText.FromCharsIff` | `src/calendar/calendar_reminders.cpp:82-87` | a text is read as a number if and only if it is the number's decimal text, zeros in front and a minus before zero apart |
| `ReminderKeys.KeyStartRoundTrip` | `src/calendar/calendar_reminders.cpp:67-89` | the start decoded from an encoded key is the event's start, for every identity (with separators or empty), start and lead |
| `ReminderKeys.KeyInjective` | `src/calendar/calendar_reminders.cpp:67-70` | two keys are equal if and only if identity, start and lead are |
| `ReminderKeys.ReminderKeyStartOf` | `src/calendar/calendar_reminders.cpp:51-89` | decoding the key of an event gives its start, also when the identity is the hashed title |
| `ReminderKeys.KeyStartIff` | `src/calendar/calendar_reminders.cpp:72-89` | any text names a start if and only if the field between its last two separators spells it |
| `Countdown.LabelIsCeiling` | `src/calendar/calendar_reminders.cpp:126-132` | the label is the least number of whole minutes that still reaches the start, 0 once it has been reached |
| `Countdown.NextChangeIsAhead` | `src/calendar/calendar_reminders.cpp:134-147` | there is a next change exactly while the event lies ahead; it is strictly after now and not after the start |
| `Countdown.LabelStepsAtNextChange` | `src/calendar/calendar_reminders.cpp:126-147` | inside the 60-minute window the label is constant until the next change and drops by exactly one there; outside it the window is entered there |
| `Countdown.RewritesAreBounded` | `src/calendar/calendar_reminder_monitor.cpp:265-286` | following the next changes from any instant ends after min(label, 61) of them |
| `ReminderLeads.NormalizeReminderLeads` | `src/calendar/calendar_reminders.cpp:57-65` | the loops leave the smallest usable leads, ascending, each once, at most five |
| `ReminderLeads.SmallestLeadsAreUnique` | `src/calendar/calendar_reminders.cpp:57-65` | that description admits one list only |
| `ReminderLeads.NormalizedIsFixed` | `src/calendar/calendar_reminders.cpp:57-65` | normalizing a normalized list changes nothing |
| `ReminderLaws.NormalizedIff` | `src/calendar/calendar_reminders.cpp:57-65` | normalized means at most five leads, strictly ascending, from zero to thirty days |
| `Sorting.LowerBound` | `src/calendar/calendar_reminders.cpp:174` | the binary search returns where the elements before the bound end, on any sorted list |
| `Sorting.UpperBound` | `src/calendar/calendar_reminders.cpp:172-173` | the binary search returns where the elements up to the bound end, on any sorted list |
| `ReminderPlanner.WindowLosesNothing` | `src/calendar/calendar_reminders.cpp:169-225` | putting only the events inside the binary-searched window to the test yields the due items and the wake of the naive scan over every event |
| `ReminderPlanner.ScanWindow` | `src/calendar/calendar_reminders.cpp:169-225` | the two searches and the scan between them compute the naive scan's due items and earliest pending reminder |
| `ReminderPlanner.DueOrderIsWeak` | `src/calendar/calendar_reminders.cpp:229-237` | start, then title bytewise, then lead is a strict weak order, as std::ranges::sort requires |
| `ReminderPlanner.OrderAndCollapse` | `src/calendar/calendar_reminders.cpp:227-255` | the due items come out sorted, the same items as went in, with only the first of every (start, title) run left to notify |
| `ReminderPlanner.OneNotificationPerGroup` | `src/calendar/calendar_reminders.cpp:239-255` | each (start, title) group has exactly one item that notifies, and it carries the group's smallest lead |
| `ReminderPlanner.PlanDigest` | `src/calendar/calendar_reminders.cpp:257-279` | the digest lists the covering all-day events once its instant has passed and unless today's was shown; today's or tomorrow's instant is considered as a wake |
| `ReminderPlanner.PlanReminders` | `src/calendar/calendar_reminders.cpp:149-282` | the imperative planner returns a plan as specified without the window: naive due scan sorted and collapsed, earliest pending reminder or digest instant as wake, empty when disabled or invalid; `ReminderLaws` says what such a plan holds |
| `ReminderLaws.OfferedIff` | `src/calendar/calendar_reminders.cpp:189-207` | an event has the leads its feed sent, each under its own key, if the switch is on and it sent a list, empty or not; otherwise the default lead under the sentinel key; an all-day event has none |
| `ReminderLaws.DueTimes` | `src/calendar/calendar_reminders.cpp:169-225` | every plan holds a reminder exactly as often as the snapshot holds an event that has it, if its key has not fired, its instant has come and the event lies ahead or the instant at most 300 s back |
| `ReminderLaws.DueIff` | `src/calendar/calendar_reminders.cpp:169-225` | a reminder is due if and only if some event of the snapshot has it, it has not fired and its time has come, all of it written out |
| `ReminderLaws.DueIsReminder` | `src/calendar/calendar_reminders.cpp:169-225` | nothing is due that is not a reminder of an event of the snapshot |
| `ReminderLaws.SilentEvents` | `src/calendar/calendar_reminders.cpp:186-207` | no due item belongs to an all-day event or to an explicitly empty list, and with the switch off every one is the default reminder |
| `ReminderLaws.DueAscends` | `src/calendar/calendar_reminders.cpp:227-255` | due items ascend by start, then title bytewise, then lead, and exactly the first of each start and title notifies |
| `ReminderLaws.TextBeforeIff` | `src/calendar/calendar_reminders.cpp:229-237` | titles compare by their first difference, a proper prefix first |
| `ReminderLaws.WakeIff` | `src/calendar/calendar_reminders.cpp:160-279` | the planned wake is no later than any unfired reminder ahead of an event starting within 31 days and than the next digest instant, and it is one of them |
| `ReminderLaws.DigestTimes` | `src/calendar/calendar_reminders.cpp:257-279` | the digest lists each all-day event that covers the local day as often as the snapshot holds it, once its instant has passed and unless it was shown that day, and is due exactly if it lists any |
| `ReminderLaws.DigestAscends` | `src/calendar/calendar_reminders.cpp:257-279` | and lists them by start |
| `ReminderRuns.PruneKeepsUntilGrace` | `src/calendar/calendar_reminders.cpp:284-291` | a fired key survives pruning if and only if now is before its event's start plus the grace |
| `ReminderLaws.PrunedIff` | `src/calendar/calendar_reminders.cpp:284-291` | a fired key of any shape survives pruning if and only if it names a start that lies less than 300 s back |
| `ReminderRuns.RepeatsOnlyAtBoundary` | `src/calendar/calendar_reminders.cpp:149-291` | a reminder recorded as fired is planned again in a later pass if and only if it has lead zero and the pass runs at exactly start plus grace |
| `ReminderRuns.PlannedAgainOnlyAtBoundary` | `src/calendar/calendar_reminders.cpp:149-291` | in any run at all, a key planned in two passes is a zero-lead reminder whose second pass runs at exactly start plus grace |
| `ReminderRuns.OnceWithinPass` | `src/calendar/calendar_reminder_monitor.cpp:176-194` | within a pass no key notifies twice, when due items that share a key and lead their groups have one title |
| `ReminderRuns.TwiceOnlyWithTwoTitles` | `src/calendar/calendar_reminders.cpp:227-255` | a key that notifies twice in a pass belongs to two due items with different titles, each with the least lead of its group |
| `ReminderRuns.AtMostOnce` | `src/calendar/calendar_reminder_monitor.cpp:161-218` | over every run with a nondecreasing clock, restarts, and arbitrary snapshots and configurations no key is notified twice, unless a due item is at the boundary instant or two due leaders of one key differ in title |
| `ReminderRuns.FiredKeyStays` | `src/calendar/calendar_reminder_monitor.cpp:87-97` | whatever passes and restarts lie between, a recorded key is on record when a later pass plans if and only if its grace is not over |
| `ReminderRuns.FiredSetCarries` | `src/calendar/calendar_reminder_monitor.cpp:87-127` | a pass starts from the keys the last one recorded, pruned, also when the shell was restarted from an older save in between |
| `ReminderRuns.RestartIsInvisible` | `src/calendar/calendar_reminder_monitor.cpp:87-97` | pruning saved keys at a restart leaves a later pass the fired set it would have had without the restart |
| `ReminderRuns.DigestOncePerDay` | `src/calendar/calendar_reminders.cpp:257-279` | over every run the digest is shown at most once per local day, as long as the days of the passes that show one do not run backwards |
| `ReminderLaws.DigestIsShown` | `src/calendar/calendar_reminders.cpp:257-279` | over every run the digest is not lost: once a pass plans past its instant with an event that covers the day, this or an earlier pass of that day has shown it, or it had been shown when the run began |
| `ReminderRepeats.BoundaryInstantRepeats` | `src/calendar/calendar_reminders.cpp:284-291` | for every event whose only reminder is at its start there is a run of two passes that notifies its key twice: one at the start, one at exactly start plus grace |
| `ReminderRepeats.TwoTitlesNotifyTwice` | `src/calendar/calendar_reminders.cpp:227-255` | two due items with one key and different titles, each alone in front of its group, make the key notify twice |
| `ReminderRepeats.NotifiesTwiceIff` | `src/calendar/calendar_reminders.cpp:227-255` | some order the sort may leave notifies a key twice in a pass if and only if two due leaders of groups share it under different titles |
| `ReminderRepeats.TwoTitlesPass` | `src/calendar/calendar_reminders.cpp:149-282` | any two timed events that share identity and start but not the title, with one reminder of the same lead each, are announced separately under one key in some pass |
| `ReminderRuns.WakeIsAhead` | `src/calendar/calendar_reminders.cpp:160-167` | a planned wake is strictly after now |
| `ReminderRuns.WakeCoversPending` | `src/calendar/calendar_reminders.cpp:186-225` | the wake is no later than any pending reminder of the window |
| `ReminderRuns.WakeIsPending` | `src/calendar/calendar_reminders.cpp:186-225` | the scan's wake is the due instant of a pending reminder of the window, so the loop never wakes for nothing |
| `ReminderRuns.NothingDueBeforeWake` | `src/calendar/calendar_reminders.cpp:149-225` | planning the same snapshot again before the wake, and for at most a day, finds nothing due, the boundary instant excepted |
| `ReminderRuns.NoDigestBeforeWake` | `src/calendar/calendar_reminders.cpp:257-279` | the digest is not due again before the wake either, for an ordered time zone |
| `ReminderRuns.FiredIfPolled` | `src/calendar/calendar_reminder_monitor.cpp:161-194` | a reminder that comes due between two passes no more than the grace apart is on record after the second, within the grace |
| `ReminderRuns.EveryReminderFires` | `src/calendar/calendar_reminder_monitor.cpp:161-194` | when passes are at most the grace apart, every reminder that comes due during a run, and is on offer in the first pass after that, is on record within the grace of being due, planned by some pass until then or on record when the run began |
| `ReminderRuns.RecordedWasPlanned` | `src/calendar/calendar_reminder_monitor.cpp:161-194` | a key on record has been planned by some pass of the run or was on record when it began, restarts included |
| `ReminderRuns.FiredIfWoken` | `src/calendar/calendar_reminder_monitor.cpp:150-212` | it is enough that each pass runs within the grace of the wake the previous one armed, or of a day |
| `ReminderMonitor.EveryGroupIsAnnounced` | `src/calendar/calendar_reminder_monitor.cpp:176-199` | toasts shown plus the summary's count equal the number of (start, title) groups, and at most three are shown one by one |
| `ReminderMonitor.OneItemPerGroup` | `src/calendar/calendar_reminder_monitor.cpp:180-194` | as many items notify as the plan has groups |
| `ReminderMonitor.CountdownWakeIsNext` | `src/calendar/calendar_reminder_monitor.cpp:265-286` | the countdown wake is strictly ahead, is the next change of some live countdown and is no later than any |
| `ReminderMonitor.CountingIff` | `src/calendar/calendar_reminder_monitor.cpp:265-286` | a countdown goes on if and only if its event lies ahead and it is not found dismissed, which is noticed within 60 minutes of the start only |
| `ReminderMonitor.CountingTimes` | `src/calendar/calendar_reminder_monitor.cpp:265-286` | exactly those are kept, each as often as it was tracked |
| `ReminderMonitor.ToastsOfPass` | `src/calendar/calendar_reminder_monitor.cpp:176-205` | the first three items that notify have a toast each, in order and with the minutes left, the number of the others comes next and the digest last |
| `ReminderMonitor.UrlsOfPass` | `src/calendar/calendar_reminder_monitor.cpp:247-257` | of the links tracked before and those of the accepted toasts that have one, the newest 32 are kept, in order |
| `ReminderMonitor.CountdownsOfPass` | `src/calendar/calendar_reminder_monitor.cpp:247-263` | of the countdowns tracked before and those of the accepted toasts whose events lie ahead, the newest 16 are kept, in order |
| `ReminderMonitor.ArmedWakeIs` | `src/calendar/calendar_reminder_monitor.cpp:206-210` | a pass arms the earlier of the plan's wake and the next change of a countdown still tracked |
| `PersistedKeys.PersistRoundTrip` | `src/calendar/calendar_reminder_monitor.cpp:53-125` | joining the keys by line and splitting them again returns them if and only if no key is empty or holds a line break |
| `PersistedKeys.AllAreSaved` | `src/calendar/calendar_reminder_monitor.cpp:99-125` | up to 256 fired keys, all are saved |
| `PersistedKeys.SoonestFirst` | `src/calendar/calendar_reminder_monitor.cpp:107-114` | a key is left out for another one only if it names no start or one no sooner |
| `PersistedKeys.KeyIsOneLineIff` | `src/calendar/calendar_reminders.cpp:67-70` | a key is one nonempty line if and only if the event's identity holds no line break |
| `PersistedKeys.RestartKeepsIff` | `src/calendar/calendar_reminder_monitor.cpp:53-125` | whatever else was saved, a restart brings a saved key back if and only if it is one nonempty line |
| `PersistedKeys.NothingElseIsLoadedIff` | `src/calendar/calendar_reminder_monitor.cpp:53-125` | a restart brings back nothing that was not saved if and only if every line of every saved key was saved itself |
| `PersistedKeys.BreakLoadsAnotherKey` | `src/calendar/calendar_reminder_monitor.cpp:53-125` | the saved key of an identity with a line break brings back the key of the identity after the break, which silences that reminder |
| `ReminderRestarts.RestartFollows` | `src/calendar/calendar_reminder_monitor.cpp:87-125` | a pass after a restart from the keys an earlier pass saved, at most 256 and each one line, follows the run, so what holds of every run holds across restarts |
| `ReminderRestarts.RepeatsAfterRestartIff` | `src/calendar/calendar_reminder_monitor.cpp:87-125` | a fired reminder is due again after a restart, within its grace, if and only if the event's identity holds a line break |
| `ReminderRestarts.LineBreakRepeats` | `src/calendar/calendar_reminder_monitor.cpp:87-125` | for every such event with one reminder, two passes around a restart notify its key twice |
| `ReminderMonitor.EvaluationCarries` | `src/calendar/calendar_reminder_monitor.cpp:161-218` | an active evaluation is a pass, and leaves the fired set, digest date and toasts the next pass of a run starts from |
| `ReminderMonitor.InactiveIsQuiet` | `src/calendar/calendar_reminder_monitor.cpp:161-171` | while reminders are off an evaluation shows, records and tracks nothing and drops the wake and the countdowns |
| `ReminderMonitor.TallyIsCapped` | `src/calendar/calendar_reminder_monitor.cpp:176-199` | the loop's totals: the first three notifying items are shown and tracked, in order, the others counted |
| `ReminderMonitor.TrackedLiesAhead` | `src/calendar/calendar_reminder_monitor.cpp:253-286` | no countdown tracked after a pass belongs to an event that has started |
| `ReminderMonitor.ArmedWakeIsAhead` | `src/calendar/calendar_reminder_monitor.cpp:206-210` | the armed wake is strictly ahead and never later than the plan's |
| `ReminderMonitor.CalendarReminderMonitor.constructor` | `src/calendar/calendar_reminder_monitor.cpp:71-97` | a fresh monitor holds the nonempty lines of the saved text, pruned at its start, and tracks nothing |
| `PersistedKeys.KeepSoonest` | `src/calendar/calendar_reminder_monitor.cpp:107-114` | of more than 256 keys the 256 whose events start soonest are kept, of fewer all, each once |
| `PersistedKeys.Encode` | `src/calendar/calendar_reminder_monitor.cpp:116-122` | the loop joins the keys by line |
| `ReminderMonitor.CalendarReminderMonitor.PersistedText` | `src/calendar/calendar_reminder_monitor.cpp:99-125` | the persisted text joins all fired keys, or the 256 whose events start soonest |
| `ReminderMonitor.CalendarReminderMonitor.FireReminder` | `src/calendar/calendar_reminder_monitor.cpp:220-263` | one toast with the current label; at most 32 links and 16 countdowns are tracked, the oldest dropped, none for a refused toast |
| `ReminderMonitor.CalendarReminderMonitor.RefreshCountdowns` | `src/calendar/calendar_reminder_monitor.cpp:265-286` | exactly the countdowns neither dismissed inside the window nor settled remain, and the earliest of their next changes is returned |
| `ReminderMonitor.CalendarReminderMonitor.FireDue` | `src/calendar/calendar_reminder_monitor.cpp:176-194` | every due key is recorded, the first three notifying items are shown and their links and countdowns tracked, the rest counted |
| `ReminderMonitor.CalendarReminderMonitor.Announce` | `src/calendar/calendar_reminder_monitor.cpp:176-205` | toasts, summary, digest, digest date, links and countdowns of a pass; nothing else changes |
| `ReminderMonitor.CalendarReminderMonitor.Evaluate` | `src/calendar/calendar_reminder_monitor.cpp:161-218` | one evaluation is one pass of the run theorems and states every member it leaves: prune, plan, fire, record, track, re-arm; an inactive monitor drops its wake and countdowns and fires nothing |
| `ReminderMonitor.CalendarReminderMonitor.OnSnapshotChanged` | `src/calendar/calendar_reminder_monitor.cpp:140-143` | a new snapshot is evaluated at once |
| `ReminderMonitor.CalendarReminderMonitor.OnConfigReload` | `src/calendar/calendar_reminder_monitor.cpp:145-148` | a reload drops the armed wake and nothing else |
| `ReminderMonitor.CalendarReminderMonitor.PollTimeoutMs` | `src/calendar/calendar_reminder_monitor.cpp:150-157` | no deadline without a wake; otherwise at most five minutes, never past the wake, and less than a millisecond short of it unless capped |
| `RefreshProtocol.StepKeepsInv` | `src/calendar/calendar_service.cpp:450-1462` | every tick, delivery, reload of any part of the configuration and cache load keeps the accounting invariant, whatever callback is delivered in whatever order |
| `RefreshProtocol.DeliveryKeepsInv` | `src/calendar/calendar_service.cpp:567-1044` | delivering any outstanding callback with any answer keeps it |
| `RefreshProtocol.RefreshAccounting` | `src/calendar/calendar_service.cpp:567-604` | in every reachable state the counter is the number of accounts yet to report, a refresh runs exactly while something is outstanding, no account reports twice, none is left out at the end, and one snapshot is rebuilt per refresh started |
| `RefreshProtocol.DeliveryMakesProgress` | `src/calendar/calendar_service.cpp:929-1044` | each delivery lowers a well-founded measure, so the token lookup, refresh and single retry cannot loop and every refresh ends |
| `RefreshResults.StartsIff` | `src/calendar/calendar_service.cpp:504-588` | a tick starts a refresh of all accounts if and only if one is due, calendars are enabled, none is running and there is an account, and does nothing otherwise |
| `AccountReports.ReportsWhatItHeard` | `src/calendar/calendar_service.cpp:567-1044` | in every refresh of every run an account that has reported has heard exactly the answers its kind asks for, in order, and reported what they imply: CalDAV by password, discovery and one answer per collection, Google with a single retry over a fresh token after an unauthorized answer, ICS and vdir by their one answer |
| `AccountReports.CollectionsAreGathered` | `src/calendar/calendar_service.cpp:628-725` | a CalDAV account reports when the last of its selected collections has answered, in any order, and then the events of all that succeeded, one after the other as they came, as a success if and only if one did |
| `RefreshResults.RefreshConcludes` | `src/calendar/calendar_service.cpp:567-626` | in any run from any idle state, with configuration changes, disablings and cache loads anywhere, the step that ends a refresh leaves each configured account with what the last of its successful reports, the cache loads and the wipes left, or else what it had before, drops the others, and rebuilds the snapshot |
| `RefreshResults.SuccessShows` | `src/calendar/calendar_service.cpp:590-626` | at the end an account that succeeded shows its own report, unless a cache load or wipe came after it, and then what the last of these left |
| `RefreshResults.FailureShows` | `src/calendar/calendar_service.cpp:590-626` | an account that failed shows what the last cache load or wipe left, or else what it had before the refresh, cached events included |
| `RefreshResults.OwnReportIff` | `src/calendar/calendar_service.cpp:590-626` | an account that succeeded shows its own report if and only if no cache load or wipe came after it, or the last one left the very same events |
| `RefreshResults.ReportIsDiscarded` | `src/calendar/calendar_service.cpp:1426-1462` | concrete run from any idle state: one account reports, the cache is loaded, the other account fails, and the refresh ends with the first showing its cached event |
| `RefreshResults.DisabledButValidIff` | `src/calendar/calendar_service.cpp:450-480` | in any stretch of a run in which calendars are disabled, the service holds a valid snapshot if and only if since the last reload that changed anything the refresh running then has ended or a cache with events has been loaded, or, without such a reload, it held one at first |
| `RefreshResults.DisabledServiceShowsEvents` | `src/calendar/calendar_service.cpp:590-604` | concrete run: calendars are disabled while a refresh runs, and its end gives the disabled service a snapshot with an event |
| `RefreshProtocol.MergedSplit` | `src/calendar/calendar_service.cpp:606-626` | the merged events are those of any one account and those of the others, each as often |
| `CalendarService.CalendarService.RebuildSnapshot` | `src/calendar/calendar_service.cpp:606-626` | unconfigured accounts are dropped and the snapshot is a sorted permutation of the others' lists |
| `CalendarService.CalendarService.AccountDone` | `src/calendar/calendar_service.cpp:590-604` | a success replaces the account's events, a failure keeps them; the last report rebuilds the snapshot and ends the refresh |
| `CalendarService.CalendarService.StartRefresh` | `src/calendar/calendar_service.cpp:567-588` | every configured account enters one refresh before any of them begins |
| `CalendarService.CalendarService.Tick` | `src/calendar/calendar_service.cpp:504-526` | a tick starts a refresh only when enabled, due and idle |
| `CalendarService.CalendarService.OnConfigReload` | `src/calendar/calendar_service.cpp:450-480` | a reload is the protocol's reload step: any change while disabled wipes events and snapshot, an outstanding refresh goes on, an unchanged configuration does nothing |
| `CalendarService.CalendarService.InstallCache` | `src/calendar/calendar_service.cpp:1453-1456` | a loaded cache replaces all events and, unless it is empty, rebuilds the snapshot, whether or not a refresh is running |
| `CalendarService.CalendarService.CollectionDone` | `src/calendar/calendar_service.cpp:628-725` | a collection counts its context down, collects the events of successes, and the last one reports the account; `AccountReports` says what that comes to over a refresh |
| `CalendarService.CalendarService.BeginAccount` | `src/calendar/calendar_service.cpp:567-588` | each kind of account issues its first operation or fails synchronously |
| `CalendarService.CalendarService.Deliver` | `src/calendar/calendar_service.cpp:628-1044` | the handlers of all callbacks, field by field, are the protocol's delivery step |
| `CachePersistence.StepKeepsInv` | `src/calendar/calendar_service.cpp:277-338` | every synchronization, save and recovery, with any I/O outcome, keeps the safety invariant: Ready means no plaintext is left, writable means the encrypted file was absent, has been opened, or has been sealed since under the same key |
| `CachePersistence.RunKeepsInv` | `src/calendar/calendar_service.cpp:277-1510` | the invariant holds over every run from any two files |
| `CachePersistence.EveryStepIsSafe` | `src/calendar/calendar_service.cpp:277-1510` | in every step of every run, whatever the I/O does, an existing encrypted file is overwritten only by a save, and then it was readable with the same key or is the oversized text the step before has saved, or by recovery; the plaintext goes only into an encrypted copy, and Ready means it is gone |
| `CachePersistence.UnreadableIsLongSave` | `src/calendar/calendar_service.cpp:1464-1499` | the file of a writable cache can be read again unless the last step has saved a text over 32 MiB |
| `CachePersistence.EncryptedFileIsReplacedSafely` | `src/calendar/calendar_service.cpp:1464-1499` | an existing encrypted file changes only by a save under the key it is sealed with, or by explicit recovery |
| `CachePersistence.PlaintextGoesOnlyIfSealed` | `src/calendar/calendar_service.cpp:1354-1424` | the plaintext file disappears only once the same key opens an encrypted copy |
| `CachePersistence.UnreadableFileSurvives` | `src/calendar/calendar_service.cpp:1354-1424` | an encrypted file that no derived key opens, or that is longer than 32 MiB, survives every run without explicit recovery unchanged, and nothing is loaded |
| `CachePersistence.SmoothLoadIsReady` | `src/calendar/calendar_service.cpp:1354-1424` | with working I/O, loading ends Ready if and only if the encrypted file opens, or is absent with a parseable or absent plaintext, none of them longer than 32 MiB |
| `CachePersistence.SavedEventsReloadIff` | `src/calendar/calendar_service.cpp:1354-1499` | the next load under the same key hands parseCache the text a save wrote if and only if it is at most 32 MiB; a longer one demands recovery |
| `CachePersistence.FailedSaveStopsSaving` | `src/calendar/calendar_service.cpp:1491-1495` | after a failed save no later one touches the file until the cache is loaded again |
| `CachePersistence.CacheStore.LoadCache` | `src/calendar/calendar_service.cpp:1354-1424` | the imperative load is the specified one for every combination of I/O outcomes, the 32 MiB limit on both files included |
| `CachePersistence.CacheStore.SyncCachePersistence` | `src/calendar/calendar_service.cpp:277-322` | the synchronization with the key provider is the specified one |
| `CachePersistence.CacheStore.SaveCache` | `src/calendar/calendar_service.cpp:1464-1499` | a save writes the dump it is given only when writable, keyed and Ready, and a failed write ends Ready |
| `CachePersistence.CacheStore.ClearEncryptedCacheForRecovery` | `src/calendar/calendar_service.cpp:326-338` | recovery drops the key and the encrypted file and waits in Opening; if the file stays it reports a backend error |
| `CachePersistence.LoadOutcome` | `src/calendar/calendar_service.cpp:1354-1424` | for every outcome of every call: a load demands recovery if and only if the encrypted file was read and then rejected or not parsed, ends Ready if and only if it opened or there was none and no plaintext is left, and otherwise with a backend error |
| `CachePersistence.LoadLeavesFiles` | `src/calendar/calendar_service.cpp:1354-1424` | what a load leaves of both files and of the pending migration, for every outcome |
| `CachePersistence.NoKeyOutcome` | `src/calendar/calendar_service.cpp:277-322` | without a key the state names the provider's reason and nothing is loaded or changed on disk |
| `CachePersistence.SaveOutcome` | `src/calendar/calendar_service.cpp:1464-1499` | a save changes the file if and only if the cache is writable and the write succeeds; a failed one ends Ready |
| `CachePersistence.RecoveryOutcome` | `src/calendar/calendar_service.cpp:326-338` | recovery drops the key and the chance to write, and the file unless it cannot be removed |
| `CacheText.SavedMapSurvivesIff` | `src/calendar/calendar_service.cpp:1426-1499` | what is dumped and parsed again is the same events per account, accounts without events apart, if and only if resolving links and normalizing leads again would change no event |
| `CacheText.LoadedMapIsStable` | `src/calendar/calendar_service.cpp:1426-1462` | whatever a cache text holds, the events loaded from it are such events |
| `CacheText.ParseIsUnique` | `src/calendar/calendar_service.cpp:1426-1462` | a text has one reading |
| `CacheText.DumpEvents` | `src/calendar/calendar_service.cpp:1469-1489` | the nested loops emit every account's events, in each account's order |
| `CacheText.ReadEvent` | `src/calendar/calendar_service.cpp:1431-1450` | links are resolved again with the location alone, leads normalized, the other fields kept |
| `CacheText.ParseItems` | `src/calendar/calendar_service.cpp:1430-1453` | the loop groups the events by account in order |
| `CalendarCache.StepKeepsInv` | `src/calendar/calendar_service.cpp:277-1499` | every step of service and cache together, restarts and key changes during a refresh included, keeps the refresh accounting, the cache's safety and that all events survive the cache |
| `CalendarCache.RunKeepsInv` | `src/calendar/calendar_service.cpp:277-1499` | so does every run from any two files |
| `CalendarCache.EndedRefreshIsSaved` | `src/calendar/calendar_service.cpp:590-604` | whatever happens meanwhile, a refresh that ends has concluded, and a cache that may be written then holds exactly its events under the current key |
| `CalendarCache.FileLasts` | `src/calendar/calendar_service.cpp:1354-1499` | between recoveries and written saves the encrypted file does not change, across restarts |
| `CalendarCache.SavedEventsComeBackIff` | `src/calendar/calendar_service.cpp:1354-1499` | the first load under the key of a refresh that was written installs exactly the events that refresh ended with, accounts without events apart, however many restarts, other keys, failed loads and unwritten refreshes lie between, if and only if the saved text is at most 32 MiB; otherwise nothing is loaded and recovery is required |
| `CalendarCache.LongTextLocksOut` | `src/calendar/calendar_service.cpp:1354-1499` | after a restart a text over 32 MiB is never loaded, with any key, and no refresh replaces it, over any run without recovery |
| `CalendarCache.SameEventsAreShown` | `src/calendar/calendar_service.cpp:1354-1499` | with the same accounts configured, such a load shows the very events the refresh had shown, sorted, each as often, or, the text being too long, changes nothing |
| `CalendarCache.RestartShowsEventIff` | `src/calendar/calendar_service.cpp:277-1499` | concrete run: any event a client produces, fetched by a refresh and saved under any key, is what the service shows after a restart and a load if and only if the text is at most 32 MiB; otherwise it ends without a snapshot, requiring recovery |
| `CalendarCache.Calendar.Deliver` | `src/calendar/calendar_service.cpp:590-604` | a delivered callback is a step of the joint machine: the one that ends a refresh dumps and saves what it shows |
| `CalendarCache.Calendar.SyncCachePersistence` | `src/app/application_services.cpp:525-529` | a key change synchronizes the cache and installs what it loads, also during a refresh |
| `BoxBlur.ReciprocalExactIff` | `src/capture/annotation_raster.cpp:126-133` | the fixed-point reciprocal of a window divides every reachable sum exactly if and only if (255 window - 1) times its overshoot stays below 2^32 |
| `BoxBlur.MeanIsExact` | `src/capture/annotation_raster.cpp:126-133` | it does for every window up to 4104 |
| `BoxBlur.WhiteStaysIff` | `src/capture/annotation_raster.cpp:108-174` | a white line stays white in a pass if and only if the window's channel sums fit 32 bits, that is up to 16843009 samples |
| `BoxBlur.PackedBytes` | `src/capture/annotation_raster.cpp:128-133` | channels do not spill into each other when packed |
| `BoxBlur.ChannelsDetermine` | `src/capture/annotation_raster.cpp:128-133` | two pixels with equal channels are equal |
| `BoxBlur.NoUnderflow` | `src/capture/annotation_raster.cpp:115-120` | the sample leaving the clamped window never exceeds the running sum |
| `BoxBlur.SumsGrow` | `src/capture/annotation_raster.cpp:108-113` | adding the entering pixel gives the sums of the longer window modulo 2^32, for every window |
| `BoxBlur.SumsShrink` | `src/capture/annotation_raster.cpp:115-120` | removing the leaving pixel gives the sums of the shorter window modulo 2^32 |
| `BoxBlur.MeanWithin` | `src/capture/annotation_raster.cpp:126-133` | exact or not, the fixed-point mean of sums that fit 32 bits lies between any bounds of the samples |
| `BoxBlur.BlurPixelIsMean` | `src/capture/annotation_raster.cpp:135-174` | in every channel the written value is the fixed-point mean over the 2r+1 samples of the line whose ends repeat the edge pixels |
| `BoxBlur.BlurPixelIsFloor` | `src/capture/annotation_raster.cpp:135-174` | for every window the reciprocal divides exactly that is the floor of the mean |
| `BoxBlur.BoxBlurHorizontal` | `src/capture/annotation_raster.cpp:135-153` | for every width, height and radius the sliding pass writes for each pixel the average of the window around it along the rows, and that is the floor of the mean if the window is divided exactly |
| `BoxBlur.BoxBlurVertical` | `src/capture/annotation_raster.cpp:155-174` | and along the columns |
| `BoxBlur.RowMean` | `src/capture/annotation_raster.cpp:135-153` | written over the buffer itself: every channel becomes the floor of the mean of the 2r+1 pixels around it in its row, edge pixels repeated |
| `BoxBlur.ColumnMean` | `src/capture/annotation_raster.cpp:155-174` | the same along its column |
| `BoxBlur.BlurIsUnique` | `src/capture/annotation_raster.cpp:135-174` | a pass is determined by its source: two buffers of floors of means are equal |
| `BoxBlur.AverageIsUnique` | `src/capture/annotation_raster.cpp:135-174` | and so are two buffers of averages, for every radius |
| `BoxBlur.PassStaysWithin` | `src/capture/annotation_raster.cpp:135-174` | for every window whose sums fit 32 bits no pass takes a channel outside the range it had |
| `BoxBlur.BlurPasses` | `src/capture/annotation_raster.cpp:277-280` | for all radii the pairs of passes are a chain of row averages and column averages from the old to the new buffer |
| `BoxBlur.PairBlurs` | `src/capture/annotation_raster.cpp:277-280` | for exactly divided windows both passes of a pair write the floors of the means |
| `BoxBlur.PassesAreUnique` | `src/capture/annotation_raster.cpp:277-280` | the blurred image is a function of the image and the radii |
| `BoxBlur.PassesNarrow` | `src/capture/annotation_raster.cpp:277-280` | no channel of any image leaves the range it had over all passes whose sums fit 32 bits |
| `BoxBlur.OneColourStays` | `src/capture/annotation_raster.cpp:277-280` | an image of one colour is a fixed point of all passes whose sums fit 32 bits; beyond these white is not |
| `Tracks.FilledAt` | `src/capture/annotation_raster.cpp:135-174` | filling a buffer line by line puts every sample of every line into its own cell, whatever the direction |
| `RecentlyUsed.InTopIff` | `src/capture/annotation_raster.cpp:301-349` | a key is among the n most recently used exactly if it was used and fewer than n different keys were used since |
| `RecentlyUsed.RankIsReuseDistance` | `src/capture/annotation_raster.cpp:301-349` | what precedes a key in the order of use is exactly what was used after its last use |
| `RecentlyUsed.TopAfterUse` | `src/capture/annotation_raster.cpp:322-347` | a bounded list that forgets the rest evolves as the unbounded order truncated |
| `BlurCache.VictimIsLast` | `src/capture/annotation_raster.cpp:322-331` | the slot picked is the next free one or, when all are filled, the least recently used |
| `BlurCache.HitStep` | `src/capture/annotation_raster.cpp:301-318` | restamping the slot of a hit moves its key to the front and keeps stamps distinct and keys unique |
| `BlurCache.EvictStep` | `src/capture/annotation_raster.cpp:333-347` | overwriting the last slot keeps the four most recent keys in order |
| `BlurCache.Cache.Find` | `src/capture/annotation_raster.cpp:305-318` | a slot holds the key if and only if it is among the four most recently used |
| `BlurCache.Cache.Victim` | `src/capture/annotation_raster.cpp:322-331` | the scan returns the first free slot or one with the least stamp |
| `BlurCache.Cache.CachedBlur` | `src/capture/annotation_raster.cpp:301-349` | every answer is the renderer's; the renderer runs if and only if the key is not among the four most recently used; a failure leaves the cache unchanged |
| `BlurCache.Cache.Clear` | `src/capture/annotation_raster.cpp:778-785` | clearing forgets every key |
| `Orientation.ThenIsAssociative` | `src/capture/screencopy_util.cpp:148-176` | composition of the eight transforms is associative with the normal orientation as unit |
| `Orientation.ApplyThen` | `src/capture/screencopy_util.cpp:27-176` | transforming twice is transforming once by the composition, for every image of every size |
| `Orientation.ApplyInverse` | `src/capture/screencopy_util.cpp:27-176` | every transform is undone by its inverse; the four mirrored ones by themselves |
| `Orientation.QuarterTurns` | `src/capture/screencopy_util.cpp:66-146` | two quarter turns are a half turn, and 270 after 90 is the identity |
| `Orientation.FlipThenTurn` | `src/capture/screencopy_util.cpp:159-172` | a flip followed by a turn is the mirrored transform of that turn |
| `Orientation.PixelsAreConserved` | `src/capture/screencopy_util.cpp:27-146` | the pixel multiset is conserved |
| `ImageTurns.SwapStep` | `src/capture/screencopy_util.cpp:94-118` | exchanging a pair at its first pixel extends the exchanged part by exactly that pair |
| `ImageTurns.CaptureImage.FlipHorizontal` | `src/capture/screencopy_util.cpp:27-44` | the in-place loop realises the left-right map for every size and leaves degenerate images alone |
| `ImageTurns.CaptureImage.FlipVertical` | `src/capture/screencopy_util.cpp:46-64` | the in-place loop realises the top-bottom map |
| `ImageTurns.CaptureImage.RotateCw90` | `src/capture/screencopy_util.cpp:66-92` | the copying loop realises the clockwise quarter turn and exchanges width and height |
| `ImageTurns.CaptureImage.Rotate180` | `src/capture/screencopy_util.cpp:94-118` | the guarded loop swaps each pair exactly once and realises the half turn |
| `ImageTurns.CaptureImage.RotateCw270` | `src/capture/screencopy_util.cpp:120-146` | the copying loop realises the counterclockwise quarter turn |
| `ImageTurns.CaptureImage.ApplyOutputTransform` | `src/capture/screencopy_util.cpp:148-176` | each transform code realises its symmetry, the mirrored turns by two loops in a row |
| `ImageTurns.CaptureImage.OrientCaptureForTransform` | `src/capture/screencopy_util.cpp:202-208` | an inverted capture is turned over first, once, and is no longer inverted |
| `ImageTurns.PixelGoesTo` | `src/capture/screencopy_util.cpp:27-172` | for each of the eight codes, the cell of the new buffer that every pixel goes to and the width it has |
| `CursorOverlay.HotspotTurnsWithPixels` | `src/capture/screenshot_image.cpp:88-119` | for every transform the rewritten hotspot is the one point whose offset to every pixel centre is the rotated or reflected original offset |
| `CursorOverlay.RotatedThen` | `src/capture/screenshot_image.cpp:88-119` | offsets turn by composition as images do |
| `CursorOverlay.RotatedKeepsLength` | `src/capture/screenshot_image.cpp:88-119` | turning an offset keeps its length |
| `CursorOverlay.CursorLandsOnItsHotspot` | `src/capture/screenshot_image.cpp:82-129` | every covered screen pixel shows the cursor pixel whose turned offset from the hotspot is the screen pixel's offset from the cursor position |
| `CursorOverlay.MixIsNearest` | `src/capture/screenshot_image.cpp:148-153` | a blended channel is the weighted mean rounded to the nearest integer |
| `CursorOverlay.Mix` | `src/capture/screenshot_image.cpp:148-153` | a blended channel lies between the two colours, so it fits a byte |
| `CursorOverlay.Cover` | `src/capture/screenshot_image.cpp:145-154` | the blended alpha is a byte and at least either alpha |
| `CursorOverlay.OverReplaces` | `src/capture/screenshot_image.cpp:139-154` | opaque cursor pixels replace, transparent backgrounds are replaced, opaque backgrounds stay opaque |
| `CursorOverlay.OverComposites` | `src/capture/screenshot_image.cpp:145-154` | with C = 255 a + b (255 - a), each blended channel times C is within C/2 of the weighted sum of both colours, and 255 times the blended alpha within 127 of C |
| `CursorOverlay.OpaqueMean` | `src/capture/screenshot_image.cpp:145-154` | over an opaque background a blended channel is the source-over mean, rounded to nearest, and the background stays opaque |
| `CursorOverlay.PaintedPixel` | `src/capture/screenshot_image.cpp:127-156` | every pixel of a painted screenshot is that composition with the cursor pixel above it, or unchanged where there is none or a transparent one |
| `CursorOverlay.Paint` | `src/capture/screenshot_image.cpp:127-156` | inside the screenshot exactly the covered pixels with nonzero alpha change, each to its blend; all accesses are in bounds |
| `CursorOverlay.ComposeCapturedCursor` | `src/capture/screenshot_image.cpp:82-158` | the background is untouched; an alternative exists exactly for a visible cursor and is the background with the turned cursor painted by its turned hotspot, pixel by pixel as `CursorOverlay.PaintedPixel` says |
| `AnnotationHistory.RenumberIsIdleIff` | `src/capture/annotation_document.cpp:273-281` | relabelling changes nothing if and only if the labels read 1..n |
| `AnnotationHistory.RenumberedIsLabelled` | `src/capture/annotation_document.cpp:273-281` | after relabelling they do |
| `AnnotationHistory.PushKeepsLabelsIff` | `src/capture/annotation_document.cpp:187-191` | pushing keeps the labels right if and only if a pushed number continues the count |
| `AnnotationHistory.EraseKeepsLabelsIff` | `src/capture/annotation_document.cpp:200-206` | erasing by index without relabelling breaks them if and only if a number is erased that another number follows |
| `AnnotationHistory.KeptIff` | `src/capture/annotation_document.cpp:208-221` | an eraser stroke takes exactly the annotations it hits |
| `AnnotationTimeline.StepKeepsInv` | `src/capture/annotation_document.cpp:163-290` | every operation keeps the two stacks together within 50 states and every label in place |
| `AnnotationTimeline.RunKeepsInv` | `src/capture/annotation_document.cpp:163-290` | so does every run from the empty document |
| `AnnotationTimeline.UndoMovesCursor` | `src/capture/annotation_document.cpp:243-256` | undo keeps the timeline, evicts nothing and moves the cursor one back |
| `AnnotationTimeline.RedoMovesCursor` | `src/capture/annotation_document.cpp:258-271` | redo moves it one forward |
| `AnnotationTimeline.UndosLand` | `src/capture/annotation_document.cpp:243-256` | k undos land k states back |
| `AnnotationTimeline.RedosAfterUndos` | `src/capture/annotation_document.cpp:243-271` | k undos then k redos restore the document exactly, the generation counter apart |
| `AnnotationTimeline.EditsKeepStacks` | `src/capture/annotation_document.cpp:187-241` | no edit of a gesture touches the stacks |
| `AnnotationTimeline.EditsWrite` | `src/capture/annotation_overlay.cpp:1823-1868` | new annotations come last, a number with the next label; what is drawn, typed or chosen is found in the open annotation; only setting a crop changes it |
| `AnnotationTimeline.EditsInPlace` | `src/capture/annotation_document.cpp:187-240` | drawing, typing and styling reach the last annotation of an open interaction only and keep its tool; whatever else changes annotations or crop moves the generation |
| `AnnotationTimeline.OffsetMoves` | `src/capture/annotation_document.cpp:232-240` | dragging moves every point of one annotation by the same way, and nothing else |
| `AnnotationTimeline.BeginAndClear` | `src/capture/annotation_document.cpp:168-175` | beginning remembers the annotations as the newest of at most fifty states and forgets what was undone; clearing leaves nothing but a new generation |
| `AnnotationTimeline.DiscardRestores` | `src/capture/annotation_document.cpp:168-185` | discarding a gesture restores the annotations it began with, whatever it did; it clears the redo stack and costs the oldest undo state when the history was full |
| `AnnotationTimeline.DiscardKeepsHistoryIff` | `src/capture/annotation_document.cpp:168-185` | it keeps the whole timeline if and only if there was nothing to redo and room for one more state |
| `AnnotationTimeline.GestureIsOneStep` | `src/capture/annotation_document.cpp:168-271` | a finished gesture is one undo step: undoing it restores what it began with, redoing it what it made |
| `AnnotationTimeline.CropEscapeKeepsTimelineIff` | `src/capture/annotation_overlay.cpp:2194-2203` | escaping a crop drag, which began no interaction, keeps the timeline if and only if there is nothing to undo |
| `AnnotationTimeline.CropEscapeRevertsGesture` | `src/capture/annotation_overlay.cpp:2194-2203` | after a finished gesture the escape reverts exactly that gesture, with nothing left to redo, and the dragged crop stays |
| `AnnotationTimeline.CropEscapeLosesAStroke` | `src/capture/annotation_overlay.cpp:1823-1830` | concrete run: a stroke is lost, beyond redo, by an abandoned crop drag |
| `AnnotationDocument.Annotations.BeginInteraction` | `src/capture/annotation_document.cpp:168-175` | the loop remembers the annotations, drops the oldest states beyond 50 and clears redo |
| `AnnotationDocument.Annotations.DiscardInteraction` | `src/capture/annotation_document.cpp:177-185` | the last undo state, if any, becomes current |
| `AnnotationDocument.Annotations.UndoStep` | `src/capture/annotation_document.cpp:243-256` | one undo as the timeline describes it, false when there is none |
| `AnnotationDocument.Annotations.RedoStep` | `src/capture/annotation_document.cpp:258-271` | one redo likewise |
| `AnnotationDocument.Annotations.Renumber` | `src/capture/annotation_document.cpp:273-281` | the loop relabels the numbers 1..n in list order |
| `AnnotationDocument.Annotations.EraseAlong` | `src/capture/annotation_document.cpp:208-221` | removing hits from the top down leaves exactly the others in order, relabelled if any was removed, and counts them |
| `AnnotationDocument.Annotations.PushNumber` | `src/capture/annotation_overlay.cpp:1850-1868` | a numbering press pushes the next label |
| `AnnotationDocument.Annotations.Restyle` | `src/capture/annotation_overlay.cpp:2270-2290` | the text under the caret takes the chosen width and colour, any other annotation stays |
| `AnnotationDocument.Annotations.Erase` | `src/capture/annotation_document.cpp:200-206` | exactly the annotation at the index goes, and nothing is relabelled |
| `AnnotationDocument.Annotations.Offset` | `src/capture/annotation_document.cpp:232-240` | every point of one annotation moves, the others stay |
| `DeadlineHistory.DeadlineIsEarliest` | `src/app/main_loop.cpp:408-446` | a source's deadline is the earliest time it has requested since its last dispatch, negative vote or absence, and none if it has requested none |
| `DeadlineHistory.DeadlineStands` | `src/app/main_loop.cpp:408-632` | a source has a deadline if and only if it has asked for one since which it has always been listed, never been dispatched and never voted for none; it is the earliest time so asked for |
| `DeadlineHistory.NeverLater` | `src/app/main_loop.cpp:440-446` | until one of those happens a deadline never moves later |
| `DeadlineHistory.RemainingIsSafe` | `src/app/main_loop.cpp:448-450` | sleeping for the remaining milliseconds never passes the deadline and stops less than one short of it unless saturated |
| `DeadlineRuns.AskedCovers` | `src/app/main_loop.cpp:440-453` | the timeout is no longer than what any listed source has left, however often it votes |
| `DeadlineRuns.PollEndsInTime` | `src/app/main_loop.cpp:448-464` | a poll that ends within its timeout misses no deadline of a listed source, a blocked flush excepted for 16 ms |
| `DeadlineRuns.TimeoutIs` | `src/app/main_loop.cpp:405-465` | the timeout is 0 with pending work, -1 without it and without a deadline, and else the time left to some listed source and no longer than that of any; a blocked flush raises it to 16 ms exactly if it is smaller and limited |
| `DeadlineRuns.TimeoutOfDeadlines` | `src/app/main_loop.cpp:405-453` | of sources listed once, the timeout of an idle, unblocked poll is the time left to the nearest of their deadlines |
| `DeadlineRuns.WokenIff` | `src/app/main_loop.cpp:614-632` | a pass dispatches a source if and only if it was due or ready and the provider still lists it when its turn comes |
| `DeadlineRuns.DueDuringPass` | `src/app/main_loop.cpp:615-630` | within a pass the deadline is gone exactly for the sources already dispatched |
| `DeadlineRuns.VoteIsAnswered` | `src/app/main_loop.cpp:402-651` | a source that asks and keeps asking is dispatched by the first pass at or after the time it asked for, across interrupted polls, other votes and reloads |
| `MainLoop.Loop.Forget` | `src/app/main_loop.cpp:408-415` | exactly the deadlines of sources no longer provided are dropped |
| `MainLoop.Loop.Note` | `src/app/main_loop.cpp:434-446` | one vote: a negative one erases the deadline, another keeps the earlier of request and deadline |
| `MainLoop.Loop.Arm` | `src/app/main_loop.cpp:408-464` | the stored deadlines agree with the history of votes, and the timeout is the one `DeadlineRuns.TimeoutIs` describes |
| `MainLoop.Loop.DispatchPass` | `src/app/main_loop.cpp:614-632` | dispatches in order what woke, erasing each deadline before its dispatch and asking the provider before each |
| `MainLoop.Loop.Iterate` | `src/app/main_loop.cpp:402-651` | one iteration, the dispatch pass skipped when the poll is interrupted |
| `Recurrence.InstancesAreSound` | `src/calendar/ical_parser.cpp:409-437` | a master has at most one instance per start, each inside the window and at no overridden instant |
| `Recurrence.NoStartIsLost` | `src/calendar/ical_parser.cpp:409-437` | every contribution inside the window and not overridden has its instance |
| `Recurrence.WinnerIs` | `src/calendar/ical_parser.cpp:428-436` | at one start the last explicit period wins; without one the first contribution stands |
| `Recurrence.OverriddenIff` | `src/calendar/ical_parser.cpp:564-574` | the excluded instants of a UID are exactly the RECURRENCE-IDs of its overriding components |
| `Recurrence.NoInstanceAtOverride` | `src/calendar/ical_parser.cpp:564-608` | no instance of a master stands at a RECURRENCE-ID overridden, or cancelled, by a component of its UID |
| `Recurrence.EndIsUnique` | `src/calendar/ical_parser.cpp:475-499` | a rule ends at one call of its iterator only |
| `Recurrence.EndlessRuleIsUnaffordable` | `src/calendar/ical_parser.cpp:475-499` | a rule that never ends and never leaves the window exhausts any budget |
| `RecurrenceLaws.WholeIff` | `src/calendar/ical_parser.cpp:439-536` | a complete expansion is made of the master's own unexcluded start without a rule, the unexcluded occurrences before each rule's end and the unexcluded RDATEs, ending after the duration or as the period says, and of nothing else |
| `RecurrenceLaws.InstanceIsContribution` | `src/calendar/ical_parser.cpp:409-536` | every instance is the component placed at such a time inside the window and at no overridden instant; it ends as the period says if there is one for its start, and else at the place of its time plus the duration |
| `RecurrenceLaws.ContributionHasInstance` | `src/calendar/ical_parser.cpp:409-536` | every such time inside the window and not overridden has its instance |
| `RecurrenceLaws.NoContributionNoInstance` | `src/calendar/ical_parser.cpp:409-536` | an excluded occurrence alone, like any other start nothing contributes, has none |
| `RecurrenceLaws.FeedIff` | `src/calendar/ical_parser.cpp:540-617` | an event is in the calendar if and only if a component that is neither cancelled nor without a start puts it there: as it is, or as an instance of its series |
| `RecurrenceLaws.RuleEndIff` | `src/calendar/ical_parser.cpp:475-499` | a rule ends at the first call that yields nothing or an occurrence past the window |
| `RecurrenceLaws.SeriesAffordableIff` | `src/calendar/ical_parser.cpp:439-536` | a series is affordable if and only if its rules end and the occurrences looked at, that past the window included, and its RDATEs are no more than the budget |
| `ICalExpansion.Expansion.AddRecurrence` | `src/calendar/ical_parser.cpp:409-437` | events and index hold one instance per start after any contribution: rejected, added, replaced by an explicit period, or ignored |
| `ICalExpansion.Expansion.ConsumeWork` | `src/calendar/ical_parser.cpp:396-402` | a unit of work is taken exactly when none has been asked to stop and some is left |
| `ICalExpansion.Expansion.RunRule` | `src/calendar/ical_parser.cpp:455-500` | one rule terminates for every iterator; it is complete exactly at its end, over budget only with all of it spent inside the window |
| `ICalExpansion.Expansion.RunRdates` | `src/calendar/ical_parser.cpp:502-535` | each RDATE costs one unit and contributes its instance, explicit periods replacing |
| `ICalExpansion.Expansion.Expand` | `src/calendar/ical_parser.cpp:439-536` | complete only if the whole series was affordable, and then everything was contributed; over budget only if it was not; cancelled only after a stop; a complete expansion appends the instances `RecurrenceLaws` describes; no more contributions than work spent and the base instance |
| `ICalExpansion.Expansion.CollectOverrides` | `src/calendar/ical_parser.cpp:564-574` | the collected map holds the overridden instants of every UID |
| `ICalExpansion.Expansion.Parse` | `src/calendar/ical_parser.cpp:540-617` | the events are the blocks of the components taken in order, each but an interrupted last one complete, and at most the components plus the work spent; complete only if all masters together were affordable, over budget only if no ends of their rules are; a damaged feed without events and a text that is no calendar are invalid |
| `Recurrence.FeedCostIsUnique` | `src/calendar/ical_parser.cpp:439-536` | what the masters of a feed cost is determined by the feed |
| `Recurrence.FeedOverrun` | `src/calendar/ical_parser.cpp:439-536` | a master that overruns what those before it have left makes the feed unaffordable, whatever the others cost |
| `EventLink.ExtractIsFirst` | `src/calendar/event_link.cpp:78-97` | the extracted link is the candidate at the first position where a scheme starts at a token boundary and the candidate is valid |
| `EventLink.NothingExtractedIff` | `src/calendar/event_link.cpp:78-97` | nothing is extracted if and only if no position holds a valid candidate at a token boundary |
| `EventLink.ExtractedIsClean` | `src/calendar/event_link.cpp:57-97` | it is valid, holds no terminator and does not end in sentence punctuation or an unbalanced wrapper |
| `EventLink.TrimmedIsLongest` | `src/calendar/event_link.cpp:57-76` | trimming leaves the longest prefix whose last character stays |
| `LinkLaws.ValidIff` | `src/calendar/event_link.cpp:26-56` | a link is valid if and only if it is http or https in any case with a host, at most 2048 bytes, none of them blank or control |
| `LinkLaws.ExtractedIs` | `src/calendar/event_link.cpp:57-97` | character by character: the first scheme no letter or digit precedes, up to the next blank, bracket or quote, without trailing punctuation and unbalanced closers, and valid |
| `EventLink.ResolvedIsValid` | `src/calendar/event_link.cpp:40-109` | every nonempty result is an http(s) link with a host, at most 2048 bytes, without whitespace or control bytes |
| `LinkLaws.ResolvedIs` | `src/calendar/event_link.cpp:100-109` | the location's link, or else the preferred field's, or else the trimmed URL if it is valid |
| `LinkLaws.TrimIs` | `src/calendar/event_link.cpp:100-109` | trimming takes off exactly the blanks at both ends |
| `LinkLaws.GoogleLinkIs` | `src/calendar/google_client.cpp:117-121` | the Google client looks at location and hangout link first and at the description only without either |
| `EventLink.ResolveIsStable` | `src/calendar/event_link.cpp:100-109` | resolving a saved link with its location gives the same link, for all strings |
| `EventLink.ReextractsIff` | `src/calendar/event_link.cpp:57-97` | a valid link would survive being read as running text if and only if it holds no terminator and does not end in punctuation |
| `EventLink.GoogleLinkIsStable` | `src/calendar/google_client.cpp:117-121` | the Google client's fallback on the description is stable as well |
| `EventLink.EventSurvivesIff` | `src/calendar/calendar_service.cpp:1426-1499` | an event comes back from the cache unchanged if and only if resolving its links and normalizing its leads again changes nothing |
| `LinkLaws.ReadBackIs` | `src/calendar/calendar_service.cpp:1431-1450` | a loaded event has the location's link or else its own if valid, its web link if valid, its leads cut down, and every other field as saved |
| `EventLink.LoadedIsStable` | `src/calendar/calendar_service.cpp:1426-1462` | what comes back is such an event, whatever was saved |
| `EventLink.ClientEventsAreStable` | `src/calendar/event_link.cpp:100-109` | what any client produced is such an event |
| `EventLink.TrimTrailingPunctuation` | `src/calendar/event_link.cpp:57-76` | the loop computes that longest prefix |
| `EventLink.ExtractEmbeddedLink` | `src/calendar/event_link.cpp:78-97` | the loop computes the first link |
| `EventLink.ResolveEventLink` | `src/calendar/event_link.cpp:100-109` | location first, then the preferred field, then the trimmed URL property if valid |

## Left out

What the model takes as given or does not describe:

- The title hash that stands in for a missing UID is a field of the event; std::hash itself is not part of the model.
- std::ranges::sort is used through its contract, a sorted permutation; `Sorting.Sort` is one way to meet it.
- Text shown to the user, its translation and its formatting: a toast holds the event and the label only.
- The monitor's snapshot is a value here; the source keeps a pointer, so an evaluation after a cache load, which does not notify, already sees the new events.
- When the monitor persists: `ReminderRestarts.RestartFollows` takes keys saved by any pass since which nothing has fired; the digest date is carried over as it is.
- The time zone database: local days and the digest instant are functions of the pass, assumed ordered where a lemma says so.
- More than 256 fired keys across a restart and a clock that moves backwards, which the source documents as degradations; `ReminderRestarts.RestartFollows` takes at most 256.
- The default lead is taken to be at most a day, as the configuration schema bounds it, and a feed's leads to be normalized, as its producers leave them.
- HTTP, WebDAV, OAuth, JSON, the secret store and encryption: their answers are the replies of callbacks and the outcomes of I/O calls.
- The calendar configuration beyond what a refresh branches on is one value, `settings`: it matters here only in whether it has changed.
- Shutdown, which drops callbacks by design, and the account connection flow.
- Watching vdir directories and remembering CalDAV discovery results: they decide when a refresh starts, not what it does.
- JSON: the text of a dump is any string of bytes, taken to be read back as the items it was made from; a text the parser rejects is a text without items.
- CalendarService.CalendarService.AccountDone: leaves out the save at its end, which `CalendarCache.Calendar.Deliver` makes with the events it ends with.
- RefreshResults.OwnReportIff: takes accounts with distinct identifiers, as do the two lemmas before it; `RefreshConcludes` does not.
- Radii for which twice the radius overflows a 32-bit integer.
- Gaussian radii, the downscale step and the subsampling before the passes: floating point and fixed taps.
- Surfaces are values in the blur cache: their destruction on eviction and the identity of a surface are not modelled, nor a strength that is not a number.
- The 64-bit stamp of the blur cache and the document's generation counter do not wrap here.
- Images are buffers of pixels; the four bytes of a pixel are moved one by one in the source.
- Whether a capture needs its output transform at all, and cropping.
- ImageTurns.CaptureImage.FlipHorizontal: takes a buffer that holds exactly width times height pixels when it holds any, as captures do.
- CursorOverlay.Paint: takes a cursor image whose buffer matches its size, without which the source reads past it.
- Overflow of 32-bit coordinates while a hotspot is rewritten; the compositing itself widens to 64 bits in the source.
- Hit testing, snapping and simplification of annotations: an eraser stroke is any predicate on annotations.
- AnnotationTimeline.RunKeepsInv: covers the edits the overlay makes, which never pushes a number except with the next label and never erases by index; `EraseKeepsLabelsIff` says what the latter would do.
- Wayland reads and flushes, deferred callbacks and rendering around the poll; their outcome is whether the flush was blocked and whether frame work is pending.
- A poll source is its address: a source allocated where another was freed between two iterations inherits its deadline here as it does in the source.
- libical: whether an occurrence lies past the window or is excluded by EXDATE, and the placing of a time by date, wall time or zone, are answers of the iterator and functions of the component.
- Properties of an event beyond its times, identity and links while it is expanded.
- EventLink.EventSurvivesIff: covers the fields that are resolved or normalized again on load; a text that is not valid UTF-8 makes the save throw in the source.
- Panels, toolbars, IPC, clicks on toasts and the rest of the shell.
