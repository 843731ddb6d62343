/** src/calendar/calendar_reminder_monitor.cpp: the stateful shell around the planner. */
module ReminderMonitor {
  import opened Wrappers
  import opened CalendarTypes
  import opened PersistedKeys
  import opened ReminderPlanner
  import opened ReminderRuns
  import opened Countdown
  import Sorting

  const MAX_CATCH_UP_NOTIFICATIONS: nat := 3
  const MAX_TRACKED_ACTION_URLS: nat := 32
  const MAX_LIVE_COUNTDOWNS: nat := 16
  const MAX_SLEEP_MS: int := 5 * 60 * 1000
  const TICKS_PER_MS: int := 1_000_000

  /** A reminder on screen whose body is still counting down to `start`. */
  datatype LiveCountdown = LiveCountdown(id: nat, start: int)

  /** What is handed to the notification manager. */
  datatype Toast =
    | ReminderToast(item: DueReminder, minutes: int)
    | SummaryToast(count: nat)
    | DigestToast(events: seq<CalendarEvent>)

  /** The notification manager's answers in one pass: the id of each request (0 when it is refused)
      and whether the notification an id belongs to is gone. */
  datatype Manager = Manager(idOf: DueReminder -> nat, dismissed: nat -> bool)

  // ---- the items of a plan that notify ----

  function NotifyItems(due: seq<DueReminder>, n: nat): (items: seq<DueReminder>)
    requires n <= |due|
    ensures |items| <= n
  {
    if n == 0 then [] else NotifyItems(due, n - 1) + if due[n - 1].notify then [due[n - 1]] else []
  }

  /** Equal groups stand side by side. */
  ghost predicate Contiguous(due: seq<DueReminder>) {
    forall i, k :: 0 <= i < k < |due| && Group(due[i]) == Group(due[k]) ==> Group(due[k - 1]) == Group(due[k])
  }

  lemma SortedIsContiguous(due: seq<DueReminder>)
    requires Sorting.SortedBy(due, DueBefore)
    ensures Contiguous(due)
  {
    forall i, k | 0 <= i < k < |due| && Group(due[i]) == Group(due[k]) ensures Group(due[k - 1]) == Group(due[k]) {
      GroupsAreRuns(due, i, k - 1, k);
    }
  }

  /** An item notifies exactly when no earlier item of the plan belongs to its group. */
  lemma NotifiesIfGroupIsNew(due: seq<DueReminder>, n: nat)
    requires Contiguous(due) && Collapsed(due) && n < |due|
    ensures due[n].notify <==> forall i :: 0 <= i < n ==> Group(due[i]) != Group(due[n])
  {
    assert due[n].notify <==> FirstOfRun(due, n);
  }

  function GroupsOf(due: seq<DueReminder>, n: nat): set<(UnixSeconds, string)>
    requires n <= |due|
  {
    if n == 0 then {} else GroupsOf(due, n - 1) + {Group(due[n - 1])}
  }

  lemma {:induction false} GroupMembers(due: seq<DueReminder>, n: nat, group: (UnixSeconds, string))
    requires n <= |due|
    ensures group !in GroupsOf(due, n) <==> forall i :: 0 <= i < n ==> Group(due[i]) != group
  {
    if n > 0 {
      GroupMembers(due, n - 1, group);
    }
  }

  predicate NotifiesIfNew(due: seq<DueReminder>, k: nat)
    requires k < |due|
  {
    due[k].notify <==> Group(due[k]) !in GroupsOf(due, k)
  }

  /** As many items notify as the plan has (start, title) groups. */
  lemma {:induction false} OneItemPerGroup(due: seq<DueReminder>, n: nat)
    requires n <= |due|
    requires forall k :: 0 <= k < n ==> NotifiesIfNew(due, k)
    ensures |NotifyItems(due, n)| == |GroupsOf(due, n)|
  {
    if n > 0 {
      var earlier, group := GroupsOf(due, n - 1), Group(due[n - 1]);
      OneItemPerGroup(due, n - 1);
      assert NotifiesIfNew(due, n - 1);
      GroupsGrow(earlier, group);
      assert GroupsOf(due, n) == earlier + {group};
    }
  }

  lemma GroupsGrow<T>(s: set<T>, x: T)
    ensures |s + {x}| == if x in s then |s| else |s| + 1
  {
    if x in s {
      assert s + {x} == s;
    }
  }

  function Shown(items: seq<DueReminder>): seq<DueReminder> {
    if |items| <= MAX_CATCH_UP_NOTIFICATIONS then items else items[..MAX_CATCH_UP_NOTIFICATIONS]
  }

  function Suppressed(items: seq<DueReminder>): nat {
    if |items| <= MAX_CATCH_UP_NOTIFICATIONS then 0 else |items| - MAX_CATCH_UP_NOTIFICATIONS
  }

  function ReminderToasts(items: seq<DueReminder>, now: int): seq<Toast> {
    seq(|items|, i requires 0 <= i < |items| =>
      ReminderToast(items[i], CountdownMinutes(StartTick(items[i].event), now)))
  }

  function Remarks(plan: ReminderPlan, suppressed: nat): seq<Toast> {
    (if suppressed > 0 then [SummaryToast(suppressed)] else [])
    + (if plan.digestDue then [DigestToast(plan.digest)] else [])
  }

  /** The toasts of a pass: at most three reminders, one summary for the rest, one digest. */
  function PassToasts(plan: ReminderPlan, now: int): seq<Toast> {
    var items := NotifyItems(plan.due, |plan.due|);
    ReminderToasts(Shown(items), now) + Remarks(plan, Suppressed(items))
  }

  /** How many of the first `n` items notify. */
  function Notifying(due: seq<DueReminder>, n: nat): (count: nat)
    requires n <= |due|
  {
    if n == 0 then 0 else Notifying(due, n - 1) + if due[n - 1].notify then 1 else 0
  }

  lemma {:induction false} NotifyItemAt(due: seq<DueReminder>, n: nat, i: nat)
    requires i < n <= |due|
    ensures |NotifyItems(due, n)| == Notifying(due, n) && Notifying(due, i) <= Notifying(due, n)
    ensures due[i].notify ==> Notifying(due, i) < Notifying(due, n) && NotifyItems(due, n)[Notifying(due, i)] == due[i]
  {
    NotifyingCounts(due, n);
    NotifyingCounts(due, n - 1);
    if i < n - 1 {
      NotifyItemAt(due, n - 1, i);
    }
  }

  lemma {:induction false} NotifyingCounts(due: seq<DueReminder>, n: nat)
    requires n <= |due|
    ensures |NotifyItems(due, n)| == Notifying(due, n)
  {
    if n > 0 {
      NotifyingCounts(due, n - 1);
    }
  }

  /** The `i`-th item has its toast, after those of the items before it, with the minutes left. */
  predicate HasToast(toasts: seq<Toast>, due: seq<DueReminder>, i: nat, now: int)
    requires i < |due|
  {
    Notifying(due, i) < |toasts| &&
    toasts[Notifying(due, i)] == ReminderToast(due[i], CountdownMinutes(due[i].event.start * 1_000_000_000, now))
  }

  lemma ItemHasToast(plan: ReminderPlan, now: int, i: nat)
    requires i < |plan.due| && plan.due[i].notify && Notifying(plan.due, i) < 3
    ensures HasToast(PassToasts(plan, now), plan.due, i, now)
  {
    NotifyItemAt(plan.due, |plan.due|, i);
    var shown := Shown(NotifyItems(plan.due, |plan.due|));
    assert shown[Notifying(plan.due, i)] == plan.due[i];
  }

  /** The first three items that notify have a toast each, in order and with the minutes left; of more, the next
      toast gives the number; the digest comes last. */
  lemma ToastsOfPass(plan: ReminderPlan, now: int)
    ensures var toasts, count := PassToasts(plan, now), Notifying(plan.due, |plan.due|);
      && |toasts| == (if count <= 3 then count else 4) + (if plan.digestDue then 1 else 0)
      && (forall i :: 0 <= i < |plan.due| && plan.due[i].notify && Notifying(plan.due, i) < 3 ==>
            HasToast(toasts, plan.due, i, now))
      && (count > 3 ==> toasts[3] == SummaryToast(count - 3))
      && (plan.digestDue ==> toasts[|toasts| - 1] == DigestToast(plan.digest))
  {
    NotifyingCounts(plan.due, |plan.due|);
    forall i | 0 <= i < |plan.due| && plan.due[i].notify && Notifying(plan.due, i) < 3
      ensures HasToast(PassToasts(plan, now), plan.due, i, now)
    {
      ItemHasToast(plan, now, i);
    }
  }

  /** Sort, collapse and cap taken together: every (start, title) group due in a plan reaches the user
      once, as one of at most three toasts or counted in the summary. */
  lemma EveryGroupIsAnnounced(plan: ReminderPlan)
    requires Sorting.SortedBy(plan.due, DueBefore) && Collapsed(plan.due)
    ensures var items := NotifyItems(plan.due, |plan.due|);
      && |Shown(items)| <= MAX_CATCH_UP_NOTIFICATIONS
      && |Shown(items)| + Suppressed(items) == |GroupsOf(plan.due, |plan.due|)|
  {
    SortedIsContiguous(plan.due);
    forall k | 0 <= k < |plan.due| ensures NotifiesIfNew(plan.due, k) {
      NotifiesIfGroupIsNew(plan.due, k);
      GroupMembers(plan.due, k, Group(plan.due[k]));
    }
    OneItemPerGroup(plan.due, |plan.due|);
  }

  // ---- countdowns ----

  /** Dropped once dismissed, noticed only inside the counting window, or settled on "starting now". */
  predicate StillCounting(live: LiveCountdown, now: int, dismissed: nat -> bool) {
    && !(CountdownMinutes(live.start, now) <= COUNTDOWN_WINDOW_MINUTES && dismissed(live.id))
    && CountdownNextChange(live.start, now).Some?
  }

  function Counting(live: seq<LiveCountdown>, n: nat, now: int, dismissed: nat -> bool): (kept: seq<LiveCountdown>)
    requires n <= |live|
    ensures |kept| <= n
  {
    if n == 0 then []
    else
      Counting(live, n - 1, now, dismissed)
      + if StillCounting(live[n - 1], now, dismissed) then [live[n - 1]] else []
  }

  /** A countdown goes on exactly while its event lies ahead, unless it is found dismissed, which is noticed in
      the last sixty minutes only. */
  lemma CountingIff(live: LiveCountdown, now: int, dismissed: nat -> bool)
    ensures StillCounting(live, now, dismissed) <==>
            now < live.start && (live.start - now > 60 * 60 * 1_000_000_000 || !dismissed(live.id))
  {
    LabelIsCeiling(live.start, now);
    NextChangeIsAhead(live.start, now);
  }

  /** The countdowns that go on stay as often as they were tracked, the others go. */
  lemma {:induction false} CountingTimes(live: seq<LiveCountdown>, n: nat, now: int, dismissed: nat -> bool,
                                         x: LiveCountdown)
    requires n <= |live|
    ensures multiset(Counting(live, n, now, dismissed))[x] ==
            if now < x.start && (x.start - now > 60 * 60 * 1_000_000_000 || !dismissed(x.id))
            then multiset(live[..n])[x] else 0
  {
    if n > 0 {
      CountingTimes(live, n - 1, now, dismissed, x);
      CountingIff(live[n - 1], now, dismissed);
      assert live[..n] == live[..n - 1] + [live[n - 1]];
    }
  }

  function Earlier(a: Option<int>, b: Option<int>): Option<int> {
    if b.Some? && (a.None? || b.value < a.value) then b else a
  }

  function CountdownWake(live: seq<LiveCountdown>, n: nat, now: int): Option<int>
    requires n <= |live|
  {
    if n == 0 then None else Earlier(CountdownWake(live, n - 1, now), CountdownNextChange(live[n - 1].start, now))
  }

  predicate ChangesAt(live: seq<LiveCountdown>, i: nat, now: int, at: int)
    requires i < |live|
  {
    CountdownNextChange(live[i].start, now) == Some(at)
  }

  /** The wake is the next change of some live countdown, and of none is it earlier. */
  lemma {:induction false} CountdownWakeIsNext(live: seq<LiveCountdown>, n: nat, now: int)
    requires n <= |live|
    ensures var wake := CountdownWake(live, n, now);
      && (wake.Some? ==> now < wake.value && exists i :: 0 <= i < n && ChangesAt(live, i, now, wake.value))
      && (forall i :: 0 <= i < n && CountdownNextChange(live[i].start, now).Some? ==>
            wake.Some? && wake.value <= CountdownNextChange(live[i].start, now).value)
  {
    if n > 0 {
      CountdownWakeIsNext(live, n - 1, now);
      NextChangeIsAhead(live[n - 1].start, now);
      var earlier, wake := CountdownWake(live, n - 1, now), CountdownWake(live, n, now);
      if wake.Some? && wake != earlier {
        assert ChangesAt(live, n - 1, now, wake.value);
      } else if wake.Some? {
        var i :| 0 <= i < n - 1 && ChangesAt(live, i, now, earlier.value);
        assert ChangesAt(live, i, now, wake.value);
      }
    }
  }

  lemma {:induction false} CountingKeepsAhead(live: seq<LiveCountdown>, n: nat, now: int, dismissed: nat -> bool)
    requires n <= |live|
    ensures forall i :: 0 <= i < |Counting(live, n, now, dismissed)| ==>
            now < Counting(live, n, now, dismissed)[i].start
  {
    if n > 0 {
      CountingKeepsAhead(live, n - 1, now, dismissed);
      NextChangeIsAhead(live[n - 1].start, now);
    }
  }

  // ---- the monitor ----

  /** The most recent `limit` entries of a list. */
  function Newest<T>(entries: seq<T>, limit: nat): (kept: seq<T>)
    ensures |kept| == (if |entries| < limit then |entries| else limit) && kept == entries[|entries| - |kept|..]
  {
    if |entries| <= limit then entries else entries[|entries| - limit..]
  }

  /** A toast the manager accepted for an event with a meeting link becomes clickable. */
  function TrackUrl(urls: seq<(nat, string)>, id: nat, url: string): seq<(nat, string)> {
    if id == 0 || url == "" then urls else Newest(urls + [(id, url)], MAX_TRACKED_ACTION_URLS)
  }

  /** A toast the manager accepted before its event started counts down. */
  function TrackCountdown(live: seq<LiveCountdown>, id: nat, start: int, now: int): seq<LiveCountdown> {
    if id == 0 || start <= now then live else Newest(live + [LiveCountdown(id, start)], MAX_LIVE_COUNTDOWNS)
  }

  /** The links tracked once the toasts for `items` have been handed over. */
  function UrlsAfter(urls: seq<(nat, string)>, items: seq<DueReminder>, manager: Manager): seq<(nat, string)> {
    if items == [] then urls
    else
      var last := items[|items| - 1];
      TrackUrl(UrlsAfter(urls, items[..|items| - 1], manager), manager.idOf(last), last.event.url)
  }

  /** The countdowns tracked once the toasts for `items` have been handed over. */
  function CountdownsAfter(live: seq<LiveCountdown>, items: seq<DueReminder>, now: int, manager: Manager)
    : seq<LiveCountdown>
  {
    if items == [] then live
    else
      var last := items[|items| - 1];
      TrackCountdown(CountdownsAfter(live, items[..|items| - 1], now, manager), manager.idOf(last),
                     StartTick(last.event), now)
  }

  /** The links of toasts the manager has accepted, in order. */
  function Links(items: seq<DueReminder>, manager: Manager): seq<(nat, string)> {
    if items == [] then []
    else
      var last := items[|items| - 1];
      Links(items[..|items| - 1], manager)
      + if manager.idOf(last) != 0 && last.event.url != "" then [(manager.idOf(last), last.event.url)] else []
  }

  /** The events of accepted toasts that lie ahead, in order. */
  function Ahead(items: seq<DueReminder>, now: int, manager: Manager): seq<LiveCountdown> {
    if items == [] then []
    else
      var last := items[|items| - 1];
      Ahead(items[..|items| - 1], now, manager)
      + if manager.idOf(last) != 0 && now < last.event.start * 1_000_000_000
        then [LiveCountdown(manager.idOf(last), last.event.start * 1_000_000_000)] else []
  }

  lemma NewestOfNewest<T>(entries: seq<T>, more: seq<T>, limit: nat)
    requires |more| <= 1
    ensures Newest(Newest(entries, limit) + more, limit) == Newest(entries + more, limit)
  {
    if |entries| > limit {
      var left, all := entries[|entries| - limit..] + more, entries + more;
      assert left == all[|entries| - limit..];
      assert left[|left| - limit..] == all[|all| - limit..];
    } else {
      assert Newest(entries, limit) == entries;
    }
  }

  /** Of the links tracked before and those of the toasts shown, the newest thirty-two are kept. */
  lemma {:induction false} UrlsOfPass(urls: seq<(nat, string)>, items: seq<DueReminder>, manager: Manager)
    requires |urls| <= 32
    ensures UrlsAfter(urls, items, manager) == Newest(urls + Links(items, manager), 32)
  {
    if items == [] {
      assert urls + [] == urls;
    } else {
      var last, front := items[|items| - 1], items[..|items| - 1];
      var id, url := manager.idOf(last), last.event.url;
      var more := if id != 0 && url != "" then [(id, url)] else [];
      UrlsOfPass(urls, front, manager);
      NewestOfNewest(urls + Links(front, manager), more, 32);
      assert urls + Links(items, manager) == urls + Links(front, manager) + more;
      assert Newest(urls + Links(front, manager), 32) + [] == Newest(urls + Links(front, manager), 32);
    }
  }

  /** Of the countdowns tracked before and those of the toasts shown, the newest sixteen are kept. */
  lemma {:induction false} CountdownsOfPass(live: seq<LiveCountdown>, items: seq<DueReminder>, now: int,
                                            manager: Manager)
    requires |live| <= 16
    ensures CountdownsAfter(live, items, now, manager) == Newest(live + Ahead(items, now, manager), 16)
  {
    if items == [] {
      assert live + [] == live;
    } else {
      var last, front := items[|items| - 1], items[..|items| - 1];
      var start := last.event.start * 1_000_000_000;
      var more := if manager.idOf(last) != 0 && now < start then [LiveCountdown(manager.idOf(last), start)] else [];
      CountdownsOfPass(live, front, now, manager);
      NewestOfNewest(live + Ahead(front, now, manager), more, 16);
      assert live + Ahead(items, now, manager) == live + Ahead(front, now, manager) + more;
      assert Newest(live + Ahead(front, now, manager), 16) + [] == Newest(live + Ahead(front, now, manager), 16);
    }
  }

  function ToShow(due: seq<DueReminder>, n: nat): seq<DueReminder>
    requires n <= |due|
  {
    Shown(NotifyItems(due, n))
  }

  /** The running totals of a pass over the items of a plan. */
  datatype Tally = Tally(notified: nat, suppressed: nat, toasts: seq<Toast>, urls: seq<(nat, string)>,
                         live: seq<LiveCountdown>)

  function Fired(t: Tally, item: DueReminder, now: int, manager: Manager): Tally {
    Tally(t.notified + 1, t.suppressed,
          t.toasts + [ReminderToast(item, CountdownMinutes(StartTick(item.event), now))],
          TrackUrl(t.urls, manager.idOf(item), item.event.url),
          TrackCountdown(t.live, manager.idOf(item), StartTick(item.event), now))
  }

  function Tallied(t: Tally, item: DueReminder, now: int, manager: Manager): Tally {
    if !item.notify then t
    else if t.notified < MAX_CATCH_UP_NOTIFICATIONS then Fired(t, item, now, manager)
    else t.(notified := t.notified + 1, suppressed := t.suppressed + 1)
  }

  function TallyOf(start: Tally, due: seq<DueReminder>, n: nat, now: int, manager: Manager): Tally
    requires n <= |due|
  {
    if n == 0 then start else Tallied(TallyOf(start, due, n - 1, now, manager), due[n - 1], now, manager)
  }

  /** What the totals are when these items notify. */
  function TotalsOf(start: Tally, items: seq<DueReminder>, now: int, manager: Manager): Tally {
    var shown := Shown(items);
    Tally(|items|, Suppressed(items), start.toasts + ReminderToasts(shown, now), UrlsAfter(start.urls, shown, manager),
          CountdownsAfter(start.live, shown, now, manager))
  }

  lemma OneMoreTotal(start: Tally, items: seq<DueReminder>, item: DueReminder, now: int, manager: Manager)
    requires item.notify
    ensures TotalsOf(start, items + [item], now, manager) ==
            Tallied(TotalsOf(start, items, now, manager), item, now, manager)
  {
    var more := items + [item];
    if |items| < MAX_CATCH_UP_NOTIFICATIONS {
      assert more[..|items|] == items;
      assert ReminderToasts(more, now) ==
             ReminderToasts(items, now) + [ReminderToast(item, CountdownMinutes(StartTick(item.event), now))];
    } else {
      assert Shown(more) == Shown(items);
    }
  }

  /** The loop's totals: the first three items that notify are shown and tracked, the others counted. */
  lemma {:induction false} TallyIsCapped(start: Tally, due: seq<DueReminder>, n: nat, now: int, manager: Manager)
    requires n <= |due| && start.notified == 0 == start.suppressed
    ensures TallyOf(start, due, n, now, manager) == TotalsOf(start, NotifyItems(due, n), now, manager)
  {
    if n > 0 {
      TallyIsCapped(start, due, n - 1, now, manager);
      if due[n - 1].notify {
        OneMoreTotal(start, NotifyItems(due, n - 1), due[n - 1], now, manager);
      } else {
        assert NotifyItems(due, n) == NotifyItems(due, n - 1);
      }
    } else {
      assert start.toasts + ReminderToasts([], now) == start.toasts;
    }
  }

  lemma KeysOfPrefix(due: seq<DueReminder>, n: nat)
    requires n < |due|
    ensures KeysOf(due[..n + 1]) == KeysOf(due[..n]) + {due[n].key}
  {
    assert due[..n + 1] == due[..n] + [due[n]];
  }

  /** The monitor's members. */
  datatype State = State(
    initialized: bool,
    snapshot: Option<CalendarSnapshot>,
    fired: set<string>,
    lastDigestDate: Option<int>,
    nextWake: Option<int>,
    actionUrls: seq<(nat, string)>,
    countdowns: seq<LiveCountdown>,
    toasts: seq<Toast>)

  /** What a pass with this plan shows and tracks. */
  function Announced(s: State, plan: ReminderPlan, zone: Zone, now: int, manager: Manager): State {
    var shown := ToShow(plan.due, |plan.due|);
    s.(fired := s.fired + KeysOf(plan.due),
       lastDigestDate := if plan.digestDue then zone.localDayOf(now) else s.lastDigestDate,
       actionUrls := UrlsAfter(s.actionUrls, shown, manager),
       countdowns := CountdownsAfter(s.countdowns, shown, now, manager),
       toasts := s.toasts + PassToasts(plan, now))
  }

  /** The pass as the runs see it. */
  function PassOfMonitor(s: State, config: RemindersConfig, zone: Zone, now: int, plan: ReminderPlan): Pass
    requires s.snapshot.Some?
  {
    Pass(now, s.snapshot.value, config, zone, s.lastDigestDate, s.fired, plan,
         PruneFiredKeys(s.fired, now) + KeysOf(plan.due))
  }

  /** The state after an active pass that acted on `plan`. */
  function AfterPass(s: State, zone: Zone, now: int, manager: Manager, plan: ReminderPlan): State {
    var t := Announced(s.(fired := PruneFiredKeys(s.fired, now)), plan, zone, now, manager);
    var live := Counting(t.countdowns, |t.countdowns|, now, manager.dismissed);
    t.(countdowns := live, nextWake := Earlier(plan.nextWake, CountdownWake(live, |live|, now)))
  }

  /** One evaluation: `plan` is the plan it acts on, if the monitor is initialized, active and has a snapshot. */
  ghost predicate Evaluated(s: State, active: bool, config: RemindersConfig, zone: Zone, now: int, manager: Manager,
                            plan: ReminderPlan, t: State)
  {
    if !s.initialized || s.snapshot.None? then t == s
    else if !active then t == s.(nextWake := None, countdowns := [])
    else IsPass(PassOfMonitor(s, config, zone, now, plan)) && t == AfterPass(s, zone, now, manager, plan)
  }

  /** What an active evaluation leaves is what the next pass of a run starts from. */
  lemma EvaluationCarries(s: State, config: RemindersConfig, zone: Zone, now: int, manager: Manager, plan: ReminderPlan,
                          t: State)
    requires s.initialized && s.snapshot.Some? && Evaluated(s, true, config, zone, now, manager, plan, t)
    ensures var p := PassOfMonitor(s, config, zone, now, plan);
      && IsPass(p) && t.fired == p.firedAfter && t.lastDigestDate == DigestDateAfter(p)
      && t.snapshot == s.snapshot && t.toasts == s.toasts + PassToasts(plan, now)
  {
  }

  /** While reminders are off nothing is shown, recorded or tracked, and nothing will wake the shell again. */
  lemma InactiveIsQuiet(s: State, config: RemindersConfig, zone: Zone, now: int, manager: Manager, plan: ReminderPlan,
                        t: State)
    requires s.initialized && s.snapshot.Some? && Evaluated(s, false, config, zone, now, manager, plan, t)
    ensures t.toasts == s.toasts && t.fired == s.fired && t.lastDigestDate == s.lastDigestDate
    ensures t.actionUrls == s.actionUrls && t.snapshot == s.snapshot
    ensures t.nextWake.None? && t.countdowns == []
  {
  }

  /** Nothing tracked after a pass has started. */
  lemma TrackedLiesAhead(s: State, zone: Zone, now: int, manager: Manager, plan: ReminderPlan)
    ensures forall i :: 0 <= i < |AfterPass(s, zone, now, manager, plan).countdowns| ==>
              now < AfterPass(s, zone, now, manager, plan).countdowns[i].start
  {
    var t := Announced(s.(fired := PruneFiredKeys(s.fired, now)), plan, zone, now, manager);
    CountingKeepsAhead(t.countdowns, |t.countdowns|, now, manager.dismissed);
  }

  /** A pass arms the earlier of the plan's wake and the next change of a countdown still tracked. */
  lemma ArmedWakeIs(s: State, zone: Zone, now: int, manager: Manager, plan: ReminderPlan)
    ensures var t := AfterPass(s, zone, now, manager, plan);
      && (plan.nextWake.Some? ==> WakesBy(t.nextWake, plan.nextWake.value))
      && (forall i :: 0 <= i < |t.countdowns| && CountdownNextChange(t.countdowns[i].start, now).Some? ==>
            WakesBy(t.nextWake, CountdownNextChange(t.countdowns[i].start, now).value))
      && (t.nextWake.Some? && t.nextWake != plan.nextWake ==>
            exists i :: 0 <= i < |t.countdowns| && ChangesAt(t.countdowns, i, now, t.nextWake.value))
  {
    var live := AfterPass(s, zone, now, manager, plan).countdowns;
    CountdownWakeIsNext(live, |live|, now);
  }

  class CalendarReminderMonitor {
    var initialized: bool
    var snapshot: Option<CalendarSnapshot>
    var fired: set<string>
    var lastDigestDate: Option<int>
    var nextWake: Option<int>
    var actionUrls: seq<(nat, string)>
    var countdowns: seq<LiveCountdown>
    // Everything handed to the notification manager so far.
    var toasts: seq<Toast>

    ghost predicate Valid()
      reads this
    {
      && |actionUrls| <= MAX_TRACKED_ACTION_URLS
      && |countdowns| <= MAX_LIVE_COUNTDOWNS
      && (snapshot.Some? ==> ValidSnapshot(snapshot.value))
    }

    function View(): State
      reads this
    {
      State(initialized, snapshot, fired, lastDigestDate, nextWake, actionUrls, countdowns, toasts)
    }

    constructor (saved: string, digestDate: Option<int>, now: int)
      ensures Valid()
      ensures View() == State(true, None, PruneFiredKeys(LoadedKeys(saved), now), digestDate, None, [], [], [])
    {
      initialized, snapshot, nextWake := true, None, None;
      fired, lastDigestDate := PruneFiredKeys(LoadedKeys(saved), now), digestDate;
      actionUrls, countdowns, toasts := [], [], [];
    }

    /** The text to persist: all fired keys, or those of the soonest events. */
    method PersistedText() returns (text: string, keys: seq<string>)
      ensures text == JoinLines(keys, |keys|) && Soonest(keys, fired)
    {
      var all := ListFired(fired);
      keys := KeepSoonest(all, fired);
      text := Encode(keys);
    }

    method TrackLink(id: nat, url: string)
      requires Valid() && id != 0
      modifies this`actionUrls
      ensures Valid() && actionUrls == TrackUrl(old(actionUrls), id, url)
    {
      if url != "" {
        actionUrls := DropOldest(actionUrls + [(id, url)], MAX_TRACKED_ACTION_URLS);
      }
    }

    method TrackLive(id: nat, start: int, now: int)
      requires Valid() && id != 0
      modifies this`countdowns
      ensures Valid() && countdowns == TrackCountdown(old(countdowns), id, start, now)
    {
      NextChangeIsAhead(start, now);
      if CountdownNextChange(start, now).Some? {
        if |countdowns| >= MAX_LIVE_COUNTDOWNS {
          countdowns := countdowns[1..];
        }
        countdowns := countdowns + [LiveCountdown(id, start)];
      }
    }

    method FireReminder(item: DueReminder, now: int, manager: Manager)
      requires Valid()
      modifies this`toasts, this`actionUrls, this`countdowns
      ensures Valid()
      ensures toasts == old(toasts) + [ReminderToast(item, CountdownMinutes(StartTick(item.event), now))]
      ensures actionUrls == TrackUrl(old(actionUrls), manager.idOf(item), item.event.url)
      ensures countdowns == TrackCountdown(old(countdowns), manager.idOf(item), StartTick(item.event), now)
    {
      toasts := toasts + [ReminderToast(item, CountdownMinutes(StartTick(item.event), now))];
      var id := manager.idOf(item);
      if id == 0 {
        return;
      }
      TrackLink(id, item.event.url);
      TrackLive(id, StartTick(item.event), now);
    }

    method RefreshCountdowns(now: int, manager: Manager) returns (wake: Option<int>)
      requires Valid()
      modifies this`countdowns
      ensures Valid()
      ensures countdowns == Counting(old(countdowns), |old(countdowns)|, now, manager.dismissed)
      ensures wake == CountdownWake(countdowns, |countdowns|, now)
    {
      wake := None;
      var kept := [];
      for i := 0 to |countdowns|
        invariant countdowns == old(countdowns)
        invariant kept == Counting(countdowns, i, now, manager.dismissed)
        invariant wake == CountdownWake(kept, |kept|, now)
      {
        var live := countdowns[i];
        if StillCounting(live, now, manager.dismissed) {
          wake := Earlier(wake, CountdownNextChange(live.start, now));
          WakeOfPrefix(kept, live, |kept|, now);
          kept := kept + [live];
        }
      }
      countdowns := kept;
    }

    ghost function Totals(notified: nat, suppressed: nat): Tally
      reads this
    {
      Tally(notified, suppressed, toasts, actionUrls, countdowns)
    }

    /** An item that notifies is shown or, past the cap, counted; either way it is recorded. */
    method FireItem(item: DueReminder, notified: nat, suppressed: nat, now: int, manager: Manager)
      returns (shown: nat, dropped: nat)
      requires Valid()
      modifies this`toasts, this`actionUrls, this`countdowns, this`fired
      ensures Valid() && fired == old(fired) + {item.key}
      ensures Totals(shown, dropped) == Tallied(old(Totals(notified, suppressed)), item, now, manager)
    {
      shown, dropped := notified, suppressed;
      if item.notify {
        if notified < MAX_CATCH_UP_NOTIFICATIONS {
          FireReminder(item, now, manager);
        } else {
          dropped := dropped + 1;
        }
        shown := shown + 1;
      }
      fired := fired + {item.key};
    }

    /** Shows the first three items that notify, counts the others, and records every key. */
    method FireDue(due: seq<DueReminder>, now: int, manager: Manager) returns (suppressed: nat)
      requires Valid()
      modifies this`toasts, this`actionUrls, this`countdowns, this`fired
      ensures Valid() && fired == old(fired) + KeysOf(due)
      ensures Totals(|NotifyItems(due, |due|)|, suppressed) ==
              TotalsOf(old(Totals(0, 0)), NotifyItems(due, |due|), now, manager)
    {
      var notified := 0;
      suppressed := 0;
      for i := 0 to |due|
        invariant Valid() && fired == old(fired) + KeysOf(due[..i])
        invariant Totals(notified, suppressed) == TallyOf(old(Totals(0, 0)), due, i, now, manager)
      {
        KeysOfPrefix(due, i);
        notified, suppressed := FireItem(due[i], notified, suppressed, now, manager);
      }
      TallyIsCapped(old(Totals(0, 0)), due, |due|, now, manager);
      assert due[..|due|] == due;
    }

    /** One toast for the reminders not shown and one for the digest. */
    method Remark(plan: ReminderPlan, suppressed: nat, zone: Zone, now: int)
      requires Valid()
      modifies this`toasts, this`lastDigestDate
      ensures Valid() && toasts == old(toasts) + Remarks(plan, suppressed)
      ensures lastDigestDate == if plan.digestDue then zone.localDayOf(now) else old(lastDigestDate)
    {
      if suppressed > 0 {
        toasts := toasts + [SummaryToast(suppressed)];
      }
      if plan.digestDue {
        toasts := toasts + [DigestToast(plan.digest)];
        lastDigestDate := zone.localDayOf(now);
      }
    }

    method Announce(plan: ReminderPlan, zone: Zone, now: int, manager: Manager)
      requires Valid()
      modifies this`toasts, this`actionUrls, this`countdowns, this`fired, this`lastDigestDate
      ensures Valid() && View() == Announced(old(View()), plan, zone, now, manager)
    {
      var suppressed := FireDue(plan.due, now, manager);
      Remark(plan, suppressed, zone, now);
    }

    /** One evaluation. A monitor that is inactive, or has no snapshot yet, acts on no plan. */
    method Evaluate(active: bool, config: RemindersConfig, zone: Zone, now: int, manager: Manager)
      returns (ghost plan: ReminderPlan)
      requires Valid() && ValidConfig(config)
      modifies this`toasts, this`actionUrls, this`countdowns, this`fired, this`lastDigestDate, this`nextWake
      ensures Valid() && Evaluated(old(View()), active, config, zone, now, manager, plan, View())
    {
      plan := EMPTY_PLAN;
      if !initialized || snapshot.None? {
        return;
      }
      if !active {
        nextWake, countdowns := None, [];
        return;
      }
      fired := PruneFiredKeys(fired, now);
      var made := PlanReminders(snapshot.value, config, zone, fired, lastDigestDate, now);
      plan := made;
      Announce(made, zone, now, manager);
      var wake := RefreshCountdowns(now, manager);
      nextWake := Earlier(made.nextWake, wake);
    }

    /** The calendar service has a new snapshot. */
    method OnSnapshotChanged(next: CalendarSnapshot, active: bool, config: RemindersConfig, zone: Zone, now: int,
                             manager: Manager)
      returns (ghost plan: ReminderPlan)
      requires Valid() && ValidConfig(config) && ValidSnapshot(next)
      modifies this
      ensures Valid()
      ensures Evaluated(old(View()).(snapshot := Some(next)), active, config, zone, now, manager, plan, View())
    {
      snapshot := Some(next);
      plan := Evaluate(active, config, zone, now, manager);
    }

    /** The armed wake is dropped at once; the evaluation that arms another one is deferred. */
    method OnConfigReload()
      requires Valid()
      modifies this`nextWake
      ensures Valid() && View() == old(View()).(nextWake := None)
    {
      nextWake := None;
    }

    /** Milliseconds to sleep, or -1 for no deadline. */
    method PollTimeoutMs(active: bool, now: int) returns (timeout: int)
      ensures timeout == -1 <==> !active || nextWake.None?
      ensures -1 <= timeout <= 300_000
      ensures active && nextWake.Some? && nextWake.value <= now ==> timeout == 0
      ensures active && nextWake.Some? && now < nextWake.value ==> now + timeout * TICKS_PER_MS <= nextWake.value
      ensures active && nextWake.Some? && timeout < 300_000 ==> nextWake.value < now + (timeout + 1) * TICKS_PER_MS
    {
      if !active || nextWake.None? {
        return -1;
      }
      // duration_cast truncates toward zero, and a negative remainder is clamped to zero anyway.
      var remaining := if nextWake.value <= now then 0 else (nextWake.value - now) / TICKS_PER_MS;
      timeout := if remaining > MAX_SLEEP_MS then MAX_SLEEP_MS else remaining;
    }
  }

  method DropOldest<T>(entries: seq<T>, limit: nat) returns (kept: seq<T>)
    ensures kept == Newest(entries, limit)
  {
    kept := entries;
    while |kept| > limit
      invariant |kept| <= |entries| && kept == entries[|entries| - |kept|..]
      invariant |kept| >= limit || kept == entries
      decreases |kept|
    {
      kept := kept[1..];
    }
  }

  lemma {:induction false} WakeOfPrefix(kept: seq<LiveCountdown>, live: LiveCountdown, n: nat, now: int)
    requires n <= |kept|
    ensures CountdownWake(kept + [live], n, now) == CountdownWake(kept, n, now)
  {
    if n > 0 {
      WakeOfPrefix(kept, live, n - 1, now);
    }
  }

  /** The wake a pass arms is strictly ahead and never later than the plan's, so nothing can come due
      unnoticed before it and the loop cannot spin on it. */
  lemma ArmedWakeIsAhead(p: Pass, countdowns: seq<LiveCountdown>)
    requires IsPass(p)
    ensures var wake := Earlier(p.plan.nextWake, CountdownWake(countdowns, |countdowns|, p.now));
      && (wake.Some? ==> p.now < wake.value)
      && (p.plan.nextWake.Some? ==> wake.Some? && wake.value <= p.plan.nextWake.value)
  {
    CountdownWakeIsNext(countdowns, |countdowns|, p.now);
    if p.plan.nextWake.Some? {
      WakeIsAhead(p);
    }
  }
}
