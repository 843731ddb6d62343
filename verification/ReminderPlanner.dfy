/** src/calendar/calendar_reminders.cpp: planReminders and pruneFiredKeys. */
module ReminderPlanner {
  import opened Wrappers
  import opened CalendarTypes
  import opened ReminderKeys
  import ReminderLeads
  import opened Sorting

  const LATE_GRACE: int := 5 * 60 * TICKS_PER_SECOND
  const DAY: int := 24 * 3600 * TICKS_PER_SECOND
  // How far past `now` the scan reaches: the widest lead and a day.
  const SCAN_AHEAD: int := ReminderLeads.MAX_LEAD_SECONDS * TICKS_PER_SECOND + DAY
  const MAX_DEFAULT_LEAD_MINUTES: int := 1440

  datatype RemindersConfig = RemindersConfig(
    enabled: bool,
    useEventReminders: bool,
    defaultLeadMinutes: int,
    allDayDigestTime: string)

  /** The time zone database: the local day of an instant, and the instant a "HH:MM" names on a day.
      Both answer None where the source's calls fail or the clock text is malformed. */
  datatype Zone = Zone(localDayOf: int -> Option<int>, digestInstantOn: (int, string) -> Option<int>)

  /** A reminder of an event: planned, or merely on offer. */
  datatype DueReminder = DueReminder(
    event: CalendarEvent,
    due: int,
    leadSeconds: int,
    fromDefaultLead: bool,
    notify: bool,
    key: string)

  datatype ReminderPlan = ReminderPlan(
    due: seq<DueReminder>,
    digest: seq<CalendarEvent>,
    digestDue: bool,
    nextWake: Option<int>)

  const EMPTY_PLAN := ReminderPlan([], [], false, None)

  /** What the configuration schema and the producers of events guarantee. */
  predicate ValidConfig(config: RemindersConfig) { config.defaultLeadMinutes <= MAX_DEFAULT_LEAD_MINUTES }

  predicate ValidLeads(event: CalendarEvent) {
    event.reminderLeads.Some? ==> ReminderLeads.Normalized(event.reminderLeads.value)
  }

  predicate AllValid(events: seq<CalendarEvent>) {
    forall i :: 0 <= i < |events| ==> ValidLeads(events[i])
  }

  predicate ValidSnapshot(snapshot: CalendarSnapshot) {
    SortedByStart(snapshot.events) && AllValid(snapshot.events)
  }

  function Offer(event: CalendarEvent, seconds: int, fromDefault: bool): DueReminder {
    DueReminder(event, StartTick(event) - seconds * TICKS_PER_SECOND, seconds, fromDefault, true,
                ReminderKey(event, if fromDefault then DEFAULT_LEAD_SENTINEL else seconds))
  }

  function DefaultLeadSeconds(config: RemindersConfig): int {
    (if config.defaultLeadMinutes > 0 then config.defaultLeadMinutes else 0) * 60
  }

  /** The reminders an event has: none if it is all-day, one per lead of its own, or the default one. */
  function Offers(event: CalendarEvent, config: RemindersConfig): seq<DueReminder> {
    if event.allDay then []
    else if config.useEventReminders && event.reminderLeads.Some? then
      var leads := event.reminderLeads.value;
      seq(|leads|, i requires 0 <= i < |leads| => Offer(event, leads[i], false))
    else [Offer(event, DefaultLeadSeconds(config), true)]
  }

  lemma OfferShape(event: CalendarEvent, config: RemindersConfig, item: DueReminder)
    requires ValidLeads(event) && ValidConfig(config) && item in Offers(event, config)
    ensures item == Offer(event, item.leadSeconds, item.fromDefaultLead)
    ensures ReminderLeads.InRange(item.leadSeconds)
    ensures item.due <= StartTick(event) <= item.due + ReminderLeads.MAX_LEAD_SECONDS * TICKS_PER_SECOND
  {
  }

  /** A due reminder is still worth showing while its event lies ahead or it only just came due. */
  predicate Relevant(event: CalendarEvent, due: int, now: int) {
    StartTick(event) > now || now - due <= LATE_GRACE
  }

  predicate IsDue(item: DueReminder, fired: set<string>, now: int) {
    item.key !in fired && item.due <= now && Relevant(item.event, item.due, now)
  }

  predicate IsPending(item: DueReminder, fired: set<string>, now: int) {
    item.key !in fired && now < item.due
  }

  predicate InWindow(event: CalendarEvent, now: int) {
    now - LATE_GRACE <= StartTick(event) <= now + SCAN_AHEAD
  }

  /** The due ones among the first `n` items. */
  function DueAmong(items: seq<DueReminder>, n: nat, fired: set<string>, now: int): seq<DueReminder>
    requires n <= |items|
  {
    if n == 0 then []
    else DueAmong(items, n - 1, fired, now) + if IsDue(items[n - 1], fired, now) then [items[n - 1]] else []
  }

  function DueOfEvent(event: CalendarEvent, config: RemindersConfig, fired: set<string>, now: int): seq<DueReminder> {
    var items := Offers(event, config);
    DueAmong(items, |items|, fired, now)
  }

  /** Every reminder of events[lo..hi] put to the due/relevant/not-fired test. */
  function DueScan(events: seq<CalendarEvent>, lo: nat, hi: nat, config: RemindersConfig, fired: set<string>, now: int)
    : seq<DueReminder>
    requires hi <= |events|
    decreases hi
  {
    if hi <= lo then []
    else DueScan(events, lo, hi - 1, config, fired, now) + DueOfEvent(events[hi - 1], config, fired, now)
  }

  /** The naive scan over every event. */
  function AllDue(events: seq<CalendarEvent>, config: RemindersConfig, fired: set<string>, now: int): seq<DueReminder> {
    DueScan(events, 0, |events|, config, fired, now)
  }

  function ConsiderWake(wake: Option<int>, now: int, when: int): Option<int> {
    if when <= now then wake
    else if wake.None? || when < wake.value then Some(when)
    else wake
  }

  function WakeAmong(items: seq<DueReminder>, n: nat, fired: set<string>, now: int, wake: Option<int>): Option<int>
    requires n <= |items|
  {
    if n == 0 then wake
    else
      var earlier := WakeAmong(items, n - 1, fired, now, wake);
      if IsPending(items[n - 1], fired, now) then ConsiderWake(earlier, now, items[n - 1].due) else earlier
  }

  function WakeOfEvent(event: CalendarEvent, config: RemindersConfig, fired: set<string>, now: int, wake: Option<int>)
    : Option<int>
  {
    var items := Offers(event, config);
    WakeAmong(items, |items|, fired, now, wake)
  }

  /** The earliest pending reminder of the events of events[lo..hi] that lie inside the window. */
  function WakeScan(events: seq<CalendarEvent>, lo: nat, hi: nat, config: RemindersConfig, fired: set<string>, now: int)
    : Option<int>
    requires hi <= |events|
    decreases hi
  {
    if hi <= lo then None
    else
      var earlier := WakeScan(events, lo, hi - 1, config, fired, now);
      if InWindow(events[hi - 1], now) then WakeOfEvent(events[hi - 1], config, fired, now, earlier) else earlier
  }

  function NextPending(events: seq<CalendarEvent>, config: RemindersConfig, fired: set<string>, now: int): Option<int> {
    WakeScan(events, 0, |events|, config, fired, now)
  }

  // ---- order and collapse ----

  /** std::string's operator<: bytewise lexicographic. */
  predicate TextBefore(a: string, b: string) {
    b != [] && (a == [] || a[0] < b[0] || (a[0] == b[0] && TextBefore(a[1..], b[1..])))
  }

  lemma {:induction false} TextOrder(a: string, b: string)
    ensures !(TextBefore(a, b) && TextBefore(b, a))
    ensures !TextBefore(a, b) && !TextBefore(b, a) <==> a == b
  {
    if a != [] && b != [] && a[0] == b[0] {
      TextOrder(a[1..], b[1..]);
      assert a == [a[0]] + a[1..] && b == [b[0]] + b[1..];
    }
  }

  lemma {:induction false} TextOrderTransitive(a: string, b: string, c: string)
    requires TextBefore(a, b) && TextBefore(b, c)
    ensures TextBefore(a, c)
  {
    if a != [] && a[0] == b[0] == c[0] {
      TextOrderTransitive(a[1..], b[1..], c[1..]);
    }
  }

  predicate DueBefore(a: DueReminder, b: DueReminder) {
    if a.event.start != b.event.start then a.event.start < b.event.start
    else if a.event.title != b.event.title then TextBefore(a.event.title, b.event.title)
    else a.leadSeconds < b.leadSeconds
  }

  lemma DueOrderTransitive(a: DueReminder, b: DueReminder, c: DueReminder)
    requires !DueBefore(b, a) && !DueBefore(c, b)
    ensures !DueBefore(c, a)
  {
    TextOrder(a.event.title, b.event.title);
    TextOrder(b.event.title, c.event.title);
    TextOrder(a.event.title, c.event.title);
    if TextBefore(a.event.title, b.event.title) && TextBefore(b.event.title, c.event.title) {
      TextOrderTransitive(a.event.title, b.event.title, c.event.title);
    }
  }

  lemma DueOrderIsWeak()
    ensures WeakOrder(DueBefore)
  {
    forall a, b | DueBefore(a, b) ensures !DueBefore(b, a) {
      TextOrder(a.event.title, b.event.title);
    }
    forall a, b, c | !DueBefore(b, a) && !DueBefore(c, b) ensures !DueBefore(c, a) {
      DueOrderTransitive(a, b, c);
    }
  }

  function Group(item: DueReminder): (UnixSeconds, string) { (item.event.start, item.event.title) }

  function Unmarked(due: seq<DueReminder>): (r: seq<DueReminder>)
    ensures |r| == |due|
  {
    seq(|due|, i requires 0 <= i < |due| => due[i].(notify := true))
  }

  /** The collapse pass keeps the first item of every run of one (start, title). */
  ghost predicate Collapsed(due: seq<DueReminder>) {
    forall i :: 0 <= i < |due| ==> (due[i].notify <==> FirstOfRun(due, i))
  }

  predicate FirstOfRun(due: seq<DueReminder>, i: nat)
    requires i < |due|
  {
    i == 0 || Group(due[i - 1]) != Group(due[i])
  }

  function MarkRuns(sorted: seq<DueReminder>): (r: seq<DueReminder>)
    ensures |r| == |sorted|
  {
    seq(|sorted|, i requires 0 <= i < |sorted| => sorted[i].(notify := FirstOfRun(sorted, i)))
  }

  lemma MarkRunsCollapses(sorted: seq<DueReminder>)
    ensures Collapsed(MarkRuns(sorted)) && Unmarked(MarkRuns(sorted)) == Unmarked(sorted)
    ensures SortedBy(sorted, DueBefore) ==> SortedBy(MarkRuns(sorted), DueBefore)
  {
    forall i | 0 <= i < |sorted| ensures FirstOfRun(MarkRuns(sorted), i) == FirstOfRun(sorted, i) {
    }
  }

  method Collapse(sorted: seq<DueReminder>) returns (due: seq<DueReminder>)
    ensures due == MarkRuns(sorted)
  {
    due := [];
    var shown: Option<(UnixSeconds, string)> := None;
    for i := 0 to |sorted|
      invariant due == MarkRuns(sorted)[..i]
      invariant shown == if i == 0 then None else Some(Group(sorted[i - 1]))
    {
      var group := Group(sorted[i]);
      if shown == Some(group) {
        due := due + [sorted[i].(notify := false)];
      } else {
        due := due + [sorted[i].(notify := true)];
        shown := Some(group);
      }
    }
  }

  /** Every (start, title) group of a plan has one item that notifies, and it has the group's smallest lead. */
  lemma OneNotificationPerGroup(due: seq<DueReminder>, i: nat) returns (first: nat)
    requires SortedBy(due, DueBefore) && Collapsed(due) && i < |due|
    ensures first <= i && Group(due[first]) == Group(due[i]) && due[first].notify
    ensures forall k :: 0 <= k < |due| && Group(due[k]) == Group(due[i]) ==>
              (due[k].notify ==> k == first) && due[first].leadSeconds <= due[k].leadSeconds
  {
    first := RunStart(due, i);
    forall k | 0 <= k < |due| && Group(due[k]) == Group(due[i])
      ensures (due[k].notify ==> k == first) && due[first].leadSeconds <= due[k].leadSeconds
    {
      FirstOfItsGroup(due, first, k);
    }
  }

  lemma RunStart(due: seq<DueReminder>, i: nat) returns (first: nat)
    requires i < |due|
    ensures first <= i && Group(due[first]) == Group(due[i]) && FirstOfRun(due, first)
  {
    first := i;
    while !FirstOfRun(due, first)
      invariant first <= i && Group(due[first]) == Group(due[i])
      decreases first
    {
      first := first - 1;
    }
  }

  lemma FirstOfItsGroup(due: seq<DueReminder>, first: nat, k: nat)
    requires SortedBy(due, DueBefore) && first < |due| && k < |due|
    requires Group(due[first]) == Group(due[k]) && FirstOfRun(due, first)
    ensures FirstOfRun(due, k) ==> k == first
    ensures due[first].leadSeconds <= due[k].leadSeconds
  {
    if k < first {
      GroupsAreRuns(due, k, first - 1, first);
    } else if first < k {
      GroupsAreRuns(due, first, k - 1, k);
    }
  }

  lemma GroupsAreRuns(due: seq<DueReminder>, i: nat, j: nat, k: nat)
    requires SortedBy(due, DueBefore) && i <= j <= k < |due| && Group(due[i]) == Group(due[k])
    ensures Group(due[j]) == Group(due[i])
  {
    if i < j < k {
      assert !DueBefore(due[j], due[i]) && !DueBefore(due[k], due[j]);
      TextOrder(due[i].event.title, due[j].event.title);
    }
  }

  // ---- the all-day digest ----

  function AllDayEventCoversDate(event: CalendarEvent, zone: Zone, now: int): bool {
    var today, startDay := zone.localDayOf(now), zone.localDayOf(StartTick(event));
    if !event.allDay || today.None? || startDay.None? then false
    else
      var endDay := if event.end > event.start then zone.localDayOf(event.end * TICKS_PER_SECOND) else None;
      var last := if endDay.Some? && endDay.value - 1 > startDay.value then endDay.value - 1 else startDay.value;
      startDay.value <= today.value <= last
  }

  function CoveringEvents(events: seq<CalendarEvent>, n: nat, zone: Zone, now: int): seq<CalendarEvent>
    requires n <= |events|
  {
    if n == 0 then []
    else
      CoveringEvents(events, n - 1, zone, now)
      + if AllDayEventCoversDate(events[n - 1], zone, now) then [events[n - 1]] else []
  }

  /** Today's digest, once its instant has passed and unless it was already shown today. */
  function DigestOf(events: seq<CalendarEvent>, config: RemindersConfig, zone: Zone, lastDigestDate: Option<int>,
                    now: int)
    : seq<CalendarEvent>
  {
    var day := zone.localDayOf(now);
    if day.None? then []
    else
      var at := zone.digestInstantOn(day.value, config.allDayDigestTime);
      if at.None? || now < at.value || lastDigestDate == Some(day.value) then []
      else CoveringEvents(events, |events|, zone, now)
  }

  function DigestWake(config: RemindersConfig, zone: Zone, now: int, wake: Option<int>): Option<int> {
    var day := zone.localDayOf(now);
    if day.None? then wake
    else
      var at := zone.digestInstantOn(day.value, config.allDayDigestTime);
      if at.None? then wake
      else if now < at.value then ConsiderWake(wake, now, at.value)
      else
        var next := zone.digestInstantOn(day.value + 1, config.allDayDigestTime);
        if next.None? then wake else ConsiderWake(wake, now, next.value)
  }

  method PlanDigest(events: seq<CalendarEvent>, config: RemindersConfig, zone: Zone, lastDigestDate: Option<int>,
                    now: int, wake: Option<int>)
    returns (digest: seq<CalendarEvent>, nextWake: Option<int>)
    ensures digest == DigestOf(events, config, zone, lastDigestDate, now)
    ensures nextWake == DigestWake(config, zone, now, wake)
  {
    digest, nextWake := [], wake;
    var day := zone.localDayOf(now);
    if day.Some? {
      var at := zone.digestInstantOn(day.value, config.allDayDigestTime);
      if at.Some? {
        if now < at.value {
          nextWake := ConsiderWake(nextWake, now, at.value);
        } else {
          if lastDigestDate != Some(day.value) {
            for i := 0 to |events|
              invariant digest == CoveringEvents(events, i, zone, now)
            {
              if AllDayEventCoversDate(events[i], zone, now) {
                digest := digest + [events[i]];
              }
            }
          }
          var next := zone.digestInstantOn(day.value + 1, config.allDayDigestTime);
          if next.Some? {
            nextWake := ConsiderWake(nextWake, now, next.value);
          }
        }
      }
    }
  }

  // ---- the plan ----

  /** What a plan holds, told without the binary-searched window: the due items are those of the
      naive scan over the whole snapshot, in order and collapsed. Ties in the order are left open,
      as std::ranges::sort leaves them. */
  ghost predicate IsPlan(snapshot: CalendarSnapshot, config: RemindersConfig, zone: Zone, fired: set<string>,
                         lastDigestDate: Option<int>, now: int, plan: ReminderPlan)
  {
    if !config.enabled || !snapshot.valid then plan == EMPTY_PLAN
    else
      && SortedBy(plan.due, DueBefore)
      && Collapsed(plan.due)
      && multiset(Unmarked(plan.due)) == multiset(AllDue(snapshot.events, config, fired, now))
      && plan.digest == DigestOf(snapshot.events, config, zone, lastDigestDate, now)
      && plan.digestDue == (plan.digest != [])
      && plan.nextWake == DigestWake(config, zone, now, NextPending(snapshot.events, config, fired, now))
  }

  method ScanOffers(items: seq<DueReminder>, fired: set<string>, now: int, wake: Option<int>)
    returns (due: seq<DueReminder>, nextWake: Option<int>)
    ensures due == DueAmong(items, |items|, fired, now)
    ensures nextWake == WakeAmong(items, |items|, fired, now, wake)
  {
    due, nextWake := [], wake;
    for i := 0 to |items|
      invariant due == DueAmong(items, i, fired, now)
      invariant nextWake == WakeAmong(items, i, fired, now, wake)
    {
      var item := items[i];
      if item.key !in fired {
        if item.due > now {
          nextWake := ConsiderWake(nextWake, now, item.due);
        } else if Relevant(item.event, item.due, now) {
          due := due + [item];
        }
      }
    }
  }

  method ScanWindow(events: seq<CalendarEvent>, config: RemindersConfig, fired: set<string>, now: int)
    returns (due: seq<DueReminder>, wake: Option<int>)
    requires SortedByStart(events) && ValidConfig(config) && AllValid(events)
    ensures due == AllDue(events, config, fired, now) && wake == NextPending(events, config, fired, now)
  {
    var scanEnd := UpperBound(events, now + SCAN_AHEAD);
    var scanBegin := LowerBound(events, now - LATE_GRACE);
    WindowOrdered(events, now, scanBegin, scanEnd);
    due, wake := [], None;
    for i := scanBegin to scanEnd
      invariant due == DueScan(events, scanBegin, i, config, fired, now)
      invariant wake == WakeScan(events, scanBegin, i, config, fired, now)
    {
      var found;
      found, wake := ScanOffers(Offers(events[i], config), fired, now, wake);
      due := due + found;
    }
    WindowLosesNothing(events, config, fired, now, scanBegin, scanEnd);
  }

  method OrderAndCollapse(due: seq<DueReminder>) returns (ordered: seq<DueReminder>)
    requires forall d :: d in due ==> d.notify
    ensures SortedBy(ordered, DueBefore) && Collapsed(ordered) && multiset(Unmarked(ordered)) == multiset(due)
  {
    DueOrderIsWeak();
    var sorted := Sort(due, DueBefore);
    ordered := Collapse(sorted);
    MarkRunsCollapses(sorted);
    UnmarkedPermutation(sorted, due);
  }

  method PlanReminders(snapshot: CalendarSnapshot, config: RemindersConfig, zone: Zone, fired: set<string>,
                       lastDigestDate: Option<int>, now: int)
    returns (plan: ReminderPlan)
    requires ValidSnapshot(snapshot) && ValidConfig(config)
    ensures IsPlan(snapshot, config, zone, fired, lastDigestDate, now, plan)
  {
    if !config.enabled || !snapshot.valid {
      return EMPTY_PLAN;
    }
    var due, wake := ScanWindow(snapshot.events, config, fired, now);
    ScanIsUnmarked(snapshot.events, |snapshot.events|, config, fired, now);
    due := OrderAndCollapse(due);
    var digest, nextWake := PlanDigest(snapshot.events, config, zone, lastDigestDate, now, wake);
    plan := ReminderPlan(due, digest, digest != [], nextWake);
  }

  lemma WindowOrdered(events: seq<CalendarEvent>, now: int, scanBegin: nat, scanEnd: nat)
    requires scanBegin <= |events| && scanEnd <= |events|
    requires forall i :: 0 <= i < scanBegin ==> StartTick(events[i]) < now - LATE_GRACE
    requires forall i :: scanEnd <= i < |events| ==> now + SCAN_AHEAD < StartTick(events[i])
    ensures scanBegin <= scanEnd
  {
    assert scanEnd < |events| ==> now + SCAN_AHEAD < StartTick(events[scanEnd]);
  }

  lemma {:induction false} NoneDue(items: seq<DueReminder>, n: nat, fired: set<string>, now: int)
    requires n <= |items| && forall i :: 0 <= i < n ==> !IsDue(items[i], fired, now)
    ensures DueAmong(items, n, fired, now) == []
  {
    if n > 0 {
      NoneDue(items, n - 1, fired, now);
    }
  }

  /** No reminder of an event outside the window is due. */
  lemma NothingDueOutside(event: CalendarEvent, config: RemindersConfig, fired: set<string>, now: int)
    requires ValidLeads(event) && ValidConfig(config) && !InWindow(event, now)
    ensures DueOfEvent(event, config, fired, now) == []
  {
    var items := Offers(event, config);
    forall i | 0 <= i < |items| ensures !IsDue(items[i], fired, now) {
      OfferShape(event, config, items[i]);
    }
    NoneDue(items, |items|, fired, now);
  }

  lemma {:induction false} DueSkipsEdges(events: seq<CalendarEvent>, hi: nat, config: RemindersConfig,
                                         fired: set<string>,
                                         now: int, scanBegin: nat, scanEnd: nat)
    requires scanBegin <= scanEnd <= |events| && hi <= |events|
    requires forall i :: 0 <= i < scanBegin || scanEnd <= i < |events| ==>
             DueOfEvent(events[i], config, fired, now) == []
    ensures DueScan(events, 0, hi, config, fired, now)
         == DueScan(events, scanBegin, if hi < scanEnd then hi else scanEnd, config, fired, now)
  {
    if hi > 0 {
      var skipped := hi <= scanBegin || scanEnd < hi;
      DueSkipsEdges(events, hi - 1, config, fired, now, scanBegin, scanEnd);
      assert skipped ==> DueOfEvent(events[hi - 1], config, fired, now) == [];
    }
  }

  lemma {:induction false} WakeSkipsEdges(events: seq<CalendarEvent>, hi: nat, config: RemindersConfig,
                                          fired: set<string>,
                                          now: int, scanBegin: nat, scanEnd: nat)
    requires scanBegin <= scanEnd <= |events| && hi <= |events|
    requires forall i :: 0 <= i < scanBegin || scanEnd <= i < |events| ==> !InWindow(events[i], now)
    ensures WakeScan(events, 0, hi, config, fired, now)
         == WakeScan(events, scanBegin, if hi < scanEnd then hi else scanEnd, config, fired, now)
  {
    if hi > 0 {
      WakeSkipsEdges(events, hi - 1, config, fired, now, scanBegin, scanEnd);
    }
  }

  /** The binary-searched window refines the naive scan: neither edge drops a reminder. */
  lemma WindowLosesNothing(events: seq<CalendarEvent>, config: RemindersConfig, fired: set<string>,
                           now: int, scanBegin: nat, scanEnd: nat)
    requires ValidConfig(config) && AllValid(events)
    requires scanBegin <= scanEnd <= |events|
    requires forall i :: 0 <= i < scanBegin ==> StartTick(events[i]) < now - LATE_GRACE
    requires forall i :: scanEnd <= i < |events| ==> now + SCAN_AHEAD < StartTick(events[i])
    ensures DueScan(events, scanBegin, scanEnd, config, fired, now) == AllDue(events, config, fired, now)
    ensures WakeScan(events, scanBegin, scanEnd, config, fired, now) == NextPending(events, config, fired, now)
  {
    forall i | 0 <= i < scanBegin || scanEnd <= i < |events|
      ensures !InWindow(events[i], now) && DueOfEvent(events[i], config, fired, now) == []
    {
      NothingDueOutside(events[i], config, fired, now);
    }
    DueSkipsEdges(events, |events|, config, fired, now, scanBegin, scanEnd);
    WakeSkipsEdges(events, |events|, config, fired, now, scanBegin, scanEnd);
  }

  lemma {:induction false} DueAmongSource(items: seq<DueReminder>, n: nat, fired: set<string>, now: int)
    requires n <= |items|
    ensures forall d :: d in DueAmong(items, n, fired, now) ==> d in items && IsDue(d, fired, now)
  {
    if n > 0 {
      DueAmongSource(items, n - 1, fired, now);
    }
  }

  lemma {:induction false} ScanIsUnmarked(events: seq<CalendarEvent>, hi: nat, config: RemindersConfig,
                                          fired: set<string>, now: int)
    requires hi <= |events|
    ensures forall d :: d in DueScan(events, 0, hi, config, fired, now) ==> d.notify
  {
    if hi > 0 {
      ScanIsUnmarked(events, hi - 1, config, fired, now);
      var items := Offers(events[hi - 1], config);
      DueAmongSource(items, |items|, fired, now);
    }
  }

  lemma UnmarkedPermutation(sorted: seq<DueReminder>, due: seq<DueReminder>)
    requires multiset(sorted) == multiset(due) && forall d :: d in due ==> d.notify
    ensures Unmarked(sorted) == sorted
  {
    forall i | 0 <= i < |sorted| ensures sorted[i].notify {
      assert sorted[i] in multiset(sorted);
      assert sorted[i] in due;
    }
  }

  /** Retains the keys of events that started less than the grace ago, and nothing malformed. */
  function PruneFiredKeys(fired: set<string>, now: int): (kept: set<string>) {
    set key | key in fired && !Forgotten(key, now)
  }

  predicate Forgotten(key: string, now: int) {
    var start := ReminderKeyStart(key);
    start.None? || start.value * TICKS_PER_SECOND <= now - LATE_GRACE
  }
}
