/** src/calendar/calendar_reminders.cpp: what a plan holds, in terms of the snapshot's events, the configuration
    and the fired keys alone. Times are nanoseconds. */
module ReminderLaws {
  import opened Wrappers
  import opened CalendarTypes
  import opened DecimalText
  import opened ReminderKeys
  import opened ReminderPlanner
  import opened ReminderRuns
  import ReminderLeads
  import Sorting

  const SECOND: int := 1_000_000_000

  // ---- which reminders an event has ----

  /** The feed's own leads, if it sent a list and the switch is on, and otherwise the default one, whose key
      carries -1; none at all for an all-day event or an empty list. */
  predicate Has(event: CalendarEvent, config: RemindersConfig, lead: int, leadKey: int) {
    && !event.allDay
    && if config.useEventReminders && event.reminderLeads.Some? then
         lead in event.reminderLeads.value && leadKey == lead
       else
         lead == 60 * (if config.defaultLeadMinutes > 0 then config.defaultLeadMinutes else 0) && leadKey == -1
  }

  function KeyText(event: CalendarEvent, leadKey: int): string {
    (if event.id == "" then "h" + event.titleHash else event.id) + "|" + Decimal(event.start) + "|" + Decimal(leadKey)
  }

  function ComesAt(event: CalendarEvent, lead: int): int { (event.start - lead) * SECOND }

  /** Its instant has come, and the event lies ahead or the instant is at most five minutes ago. */
  predicate Comes(event: CalendarEvent, lead: int, now: int) {
    ComesAt(event, lead) <= now && (now < event.start * SECOND || now <= ComesAt(event, lead) + 300 * SECOND)
  }

  predicate IsNow(event: CalendarEvent, config: RemindersConfig, fired: set<string>, lead: int, leadKey: int,
                  now: int) {
    Has(event, config, lead, leadKey) && KeyText(event, leadKey) !in fired && Comes(event, lead, now)
  }

  function Item(event: CalendarEvent, lead: int, leadKey: int): DueReminder {
    DueReminder(event, ComesAt(event, lead), lead, leadKey == -1, true, KeyText(event, leadKey))
  }

  function LeadKey(item: DueReminder): int { if item.fromDefaultLead then -1 else item.leadSeconds }

  lemma OfferIsItem(event: CalendarEvent, lead: int, fromDefault: bool)
    requires !fromDefault ==> lead != -1
    ensures Offer(event, lead, fromDefault) == Item(event, lead, if fromDefault then -1 else lead)
  {
  }

  /** The reminders of an event, told apart by lead and key. */
  lemma OfferedIff(event: CalendarEvent, config: RemindersConfig, lead: int, leadKey: int)
    requires ValidLeads(event)
    ensures Item(event, lead, leadKey) in Offers(event, config) <==> Has(event, config, lead, leadKey)
  {
    if !event.allDay && config.useEventReminders && event.reminderLeads.Some? {
      OwnLeadIff(event, config, lead, leadKey);
    } else if !event.allDay {
      OfferIsItem(event, DefaultLeadSeconds(config), true);
      KeyTextDiffers(event, lead, leadKey);
    }
  }

  lemma KeyTextDiffers(event: CalendarEvent, lead: int, leadKey: int)
    ensures Item(event, lead, leadKey) == Item(event, lead, -1) <==> leadKey == -1
  {
  }

  lemma OwnLeadIff(event: CalendarEvent, config: RemindersConfig, lead: int, leadKey: int)
    requires ValidLeads(event) && !event.allDay && config.useEventReminders && event.reminderLeads.Some?
    ensures Item(event, lead, leadKey) in Offers(event, config) <==>
            lead in event.reminderLeads.value && leadKey == lead
  {
    var leads, items := event.reminderLeads.value, Offers(event, config);
    forall i | 0 <= i < |leads| ensures items[i] == Item(event, leads[i], leads[i]) {
      assert ReminderLeads.InRange(leads[i]);
      OfferIsItem(event, leads[i], false);
    }
    if lead in leads && leadKey == lead {
      var i :| 0 <= i < |leads| && leads[i] == lead;
      assert items[i] == Item(event, lead, leadKey);
    }
    if Item(event, lead, leadKey) in items {
      var i :| 0 <= i < |items| && items[i] == Item(event, lead, leadKey);
      SameItem(event, lead, leadKey, leads[i]);
    }
  }

  lemma SameItem(event: CalendarEvent, lead: int, leadKey: int, other: int)
    requires Item(event, lead, leadKey) == Item(event, other, other) && other >= 0
    ensures lead == leadKey == other
  {
    KeyInjective(EventId(event), event.start, leadKey, EventId(event), event.start, other);
  }

  /** Every reminder on offer is one of these. */
  lemma OfferedIsItem(event: CalendarEvent, config: RemindersConfig, item: DueReminder)
    requires ValidLeads(event) && item in Offers(event, config)
    ensures item == Item(event, item.leadSeconds, LeadKey(item))
    ensures Has(event, config, item.leadSeconds, LeadKey(item))
  {
    OfferIsItem(event, item.leadSeconds, item.fromDefaultLead);
    OfferedIff(event, config, item.leadSeconds, LeadKey(item));
  }

  lemma DueIsNow(event: CalendarEvent, lead: int, leadKey: int, fired: set<string>, now: int)
    ensures IsDue(Item(event, lead, leadKey), fired, now) <==>
            KeyText(event, leadKey) !in fired && Comes(event, lead, now)
  {
  }

  /** The leads a list is normalized to: at most five, ascending, each at most thirty days. */
  lemma NormalizedIff(leads: seq<int>)
    ensures ReminderLeads.Normalized(leads) <==>
      && |leads| <= 5 && (forall i, j :: 0 <= i < j < |leads| ==> leads[i] < leads[j])
      && forall i :: 0 <= i < |leads| ==> 0 <= leads[i] <= 30 * 24 * 3600
  {
  }

  // ---- what is due ----

  lemma CountTogether<T>(s: seq<T>, t: seq<T>, x: T)
    ensures multiset(s + t)[x] == multiset(s)[x] + multiset(t)[x]
  {
  }

  predicate NoTwice(items: seq<DueReminder>) {
    forall i, j :: 0 <= i < j < |items| ==> items[i] != items[j]
  }

  lemma LastIsNew(items: seq<DueReminder>, n: nat, x: DueReminder)
    requires 0 < n <= |items| && NoTwice(items)
    ensures x in items[..n] <==> x in items[..n - 1] || x == items[n - 1]
    ensures items[n - 1] !in items[..n - 1]
  {
    assert items[..n] == items[..n - 1] + [items[n - 1]];
  }

  lemma {:induction false} CountAmong(items: seq<DueReminder>, n: nat, fired: set<string>, now: int, x: DueReminder)
    requires n <= |items| && NoTwice(items)
    ensures multiset(DueAmong(items, n, fired, now))[x] == if x in items[..n] && IsDue(x, fired, now) then 1 else 0
  {
    if n > 0 {
      var last := if IsDue(items[n - 1], fired, now) then [items[n - 1]] else [];
      CountAmong(items, n - 1, fired, now, x);
      LastIsNew(items, n, x);
      CountTogether(DueAmong(items, n - 1, fired, now), last, x);
    }
  }

  lemma OffersDiffer(event: CalendarEvent, config: RemindersConfig, i: nat, j: nat)
    requires ValidLeads(event) && i < j < |Offers(event, config)|
    ensures Offers(event, config)[i] != Offers(event, config)[j]
  {
    var leads := event.reminderLeads.value;
    assert leads[i] < leads[j];
  }

  lemma CountOfEvent(event: CalendarEvent, config: RemindersConfig, fired: set<string>, now: int, of: CalendarEvent,
                     lead: int, leadKey: int)
    requires ValidLeads(event)
    ensures multiset(DueOfEvent(event, config, fired, now))[Item(of, lead, leadKey)] ==
            if event == of && IsNow(event, config, fired, lead, leadKey, now) then 1 else 0
  {
    var items, x := Offers(event, config), Item(of, lead, leadKey);
    forall i, j | 0 <= i < j < |items| ensures items[i] != items[j] {
      OffersDiffer(event, config, i, j);
    }
    assert NoTwice(items);
    CountAmong(items, |items|, fired, now, x);
    assert items[..|items|] == items;
    if event == of {
      OfferedIff(event, config, lead, leadKey);
      DueIsNow(event, lead, leadKey, fired, now);
    } else if x in items {
      OfferedIsItem(event, config, x);
    }
  }

  lemma PrefixCount(events: seq<CalendarEvent>, n: nat, event: CalendarEvent)
    requires 0 < n <= |events|
    ensures multiset(events[..n])[event] == multiset(events[..n - 1])[event] + if events[n - 1] == event then 1 else 0
  {
    CountTogether(events[..n - 1], [events[n - 1]], event);
    assert events[..n] == events[..n - 1] + [events[n - 1]];
  }

  lemma ScanCount(events: seq<CalendarEvent>, hi: nat, config: RemindersConfig, fired: set<string>, now: int,
                  x: DueReminder)
    requires 0 < hi <= |events|
    ensures multiset(DueScan(events, 0, hi, config, fired, now))[x] ==
            multiset(DueScan(events, 0, hi - 1, config, fired, now))[x]
            + multiset(DueOfEvent(events[hi - 1], config, fired, now))[x]
  {
    CountTogether(DueScan(events, 0, hi - 1, config, fired, now), DueOfEvent(events[hi - 1], config, fired, now), x);
  }

  lemma {:induction false} CountScanned(events: seq<CalendarEvent>, hi: nat, config: RemindersConfig,
                                        fired: set<string>,
                                        now: int, event: CalendarEvent, lead: int, leadKey: int)
    requires hi <= |events| && AllValid(events)
    ensures multiset(DueScan(events, 0, hi, config, fired, now))[Item(event, lead, leadKey)] ==
            if IsNow(event, config, fired, lead, leadKey, now) then multiset(events[..hi])[event] else 0
  {
    if hi > 0 {
      CountScanned(events, hi - 1, config, fired, now, event, lead, leadKey);
      CountOfEvent(events[hi - 1], config, fired, now, event, lead, leadKey);
      ScanCount(events, hi, config, fired, now, Item(event, lead, leadKey));
      PrefixCount(events, hi, event);
    }
  }

  predicate Plans(due: seq<DueReminder>, i: nat, event: CalendarEvent, lead: int, leadKey: int)
    requires i < |due|
  {
    due[i].(notify := true) == Item(event, lead, leadKey)
  }

  function TimesPlanned(due: seq<DueReminder>, n: nat, event: CalendarEvent, lead: int, leadKey: int): (times: nat)
    requires n <= |due|
    ensures times > 0 <==> exists i :: 0 <= i < n && Plans(due, i, event, lead, leadKey)
  {
    if n == 0 then 0
    else TimesPlanned(due, n - 1, event, lead, leadKey) + if Plans(due, n - 1, event, lead, leadKey) then 1 else 0
  }

  lemma {:induction false} TimesCount(due: seq<DueReminder>, n: nat, event: CalendarEvent, lead: int, leadKey: int)
    requires n <= |due|
    ensures TimesPlanned(due, n, event, lead, leadKey) == multiset(Unmarked(due)[..n])[Item(event, lead, leadKey)]
  {
    if n > 0 {
      TimesCount(due, n - 1, event, lead, leadKey);
      assert Unmarked(due)[..n] == Unmarked(due)[..n - 1] + [Unmarked(due)[n - 1]];
    }
  }

  ghost predicate IsActivePlan(snapshot: CalendarSnapshot, config: RemindersConfig, zone: Zone, fired: set<string>,
                               shown: Option<int>, now: int, plan: ReminderPlan)
  {
    && config.enabled && snapshot.valid && ValidSnapshot(snapshot) && ValidConfig(config)
    && IsPlan(snapshot, config, zone, fired, shown, now, plan)
  }

  /** A plan holds a reminder as often as the snapshot holds its event, if the event has it, it has not fired and
      its time has come, and never otherwise. */
  lemma DueTimes(snapshot: CalendarSnapshot, config: RemindersConfig, zone: Zone, fired: set<string>,
                 shown: Option<int>, now: int, plan: ReminderPlan, event: CalendarEvent, lead: int, leadKey: int)
    requires IsActivePlan(snapshot, config, zone, fired, shown, now, plan)
    ensures TimesPlanned(plan.due, |plan.due|, event, lead, leadKey) ==
            if IsNow(event, config, fired, lead, leadKey, now) then multiset(snapshot.events)[event] else 0
  {
    var events, due := snapshot.events, plan.due;
    TimesCount(due, |due|, event, lead, leadKey);
    assert Unmarked(due)[..|due|] == Unmarked(due);
    CountScanned(events, |events|, config, fired, now, event, lead, leadKey);
    assert events[..|events|] == events;
  }

  /** A reminder is due if and only if an event of the snapshot has it, it has not fired and its time has come. */
  lemma DueIff(snapshot: CalendarSnapshot, config: RemindersConfig, zone: Zone, fired: set<string>, shown: Option<int>,
               now: int, plan: ReminderPlan, event: CalendarEvent, lead: int, leadKey: int)
    requires IsActivePlan(snapshot, config, zone, fired, shown, now, plan)
    ensures (exists i :: 0 <= i < |plan.due| && Plans(plan.due, i, event, lead, leadKey)) <==>
            event in snapshot.events && Has(event, config, lead, leadKey) && KeyText(event, leadKey) !in fired
            && Comes(event, lead, now)
  {
    DueTimes(snapshot, config, zone, fired, shown, now, plan, event, lead, leadKey);
    assert event in snapshot.events <==> event in multiset(snapshot.events);
  }

  /** Nothing else is ever due: every item of a plan is such a reminder. */
  lemma DueIsReminder(snapshot: CalendarSnapshot, config: RemindersConfig, zone: Zone, fired: set<string>,
                      shown: Option<int>, now: int, plan: ReminderPlan, i: nat)
    requires IsActivePlan(snapshot, config, zone, fired, shown, now, plan) && i < |plan.due|
    ensures Plans(plan.due, i, plan.due[i].event, plan.due[i].leadSeconds, LeadKey(plan.due[i]))
    ensures plan.due[i].event in snapshot.events
    ensures Has(plan.due[i].event, config, plan.due[i].leadSeconds, LeadKey(plan.due[i]))
  {
    var events, item := snapshot.events, Unmarked(plan.due)[i];
    assert item in multiset(Unmarked(plan.due));
    assert item in multiset(AllDue(events, config, fired, now));
    var event := SourceOfDue(events, |events|, config, fired, now, item);
    var at :| 0 <= at < |events| && events[at] == event;
    OfferedIsItem(event, config, item);
  }

  /** An explicitly empty list stays silent, an all-day event has no reminder of its own, and with the switch
      off every reminder is the default one. */
  lemma SilentEvents(snapshot: CalendarSnapshot, config: RemindersConfig, zone: Zone, fired: set<string>,
                     shown: Option<int>, now: int, plan: ReminderPlan, i: nat)
    requires IsActivePlan(snapshot, config, zone, fired, shown, now, plan) && i < |plan.due|
    ensures var item := plan.due[i];
      && !item.event.allDay
      && (config.useEventReminders ==> item.event.reminderLeads != Some([]))
      && (!config.useEventReminders ==> item.fromDefaultLead)
  {
    DueIsReminder(snapshot, config, zone, fired, shown, now, plan, i);
  }

  // ---- their order ----

  /** Bytewise lexicographic order: a proper prefix, or the first difference decides. */
  lemma {:induction false} TextBeforeIff(a: string, b: string)
    ensures TextBefore(a, b) <==> exists k :: FirstDifference(a, b, k)
  {
    if a != [] && b != [] && a[0] == b[0] {
      TextBeforeIff(a[1..], b[1..]);
      if k :| FirstDifference(a[1..], b[1..], k) {
        assert a[..k + 1] == [a[0]] + a[1..][..k] && b[..k + 1] == [b[0]] + b[1..][..k];
        assert FirstDifference(a, b, k + 1);
      }
      if k :| FirstDifference(a, b, k) {
        assert k > 0 && a[1..][..k - 1] == a[..k][1..] && b[1..][..k - 1] == b[..k][1..];
        assert FirstDifference(a[1..], b[1..], k - 1);
      }
    } else if TextBefore(a, b) {
      assert FirstDifference(a, b, 0);
    }
  }

  predicate FirstDifference(a: string, b: string, k: int) {
    0 <= k <= |a| && k < |b| && a[..k] == b[..k] && (k == |a| || a[k] < b[k])
  }

  /** Due reminders ascend by start, then title, then lead; the first of each start and title notifies. */
  lemma DueAscends(snapshot: CalendarSnapshot, config: RemindersConfig, zone: Zone, fired: set<string>,
                   shown: Option<int>, now: int, plan: ReminderPlan, i: nat, j: nat)
    requires IsActivePlan(snapshot, config, zone, fired, shown, now, plan) && i < j < |plan.due|
    ensures var a, b := plan.due[i], plan.due[j];
      || a.event.start < b.event.start
      || (a.event.start == b.event.start && exists k :: FirstDifference(a.event.title, b.event.title, k))
      || (a.event.start == b.event.start && a.event.title == b.event.title && a.leadSeconds <= b.leadSeconds)
    ensures plan.due[0].notify
    ensures plan.due[j].notify <==> (plan.due[j].event.start, plan.due[j].event.title) !=
                                    (plan.due[j - 1].event.start, plan.due[j - 1].event.title)
  {
    var a, b := plan.due[i], plan.due[j];
    assert !DueBefore(b, a);
    TextOrder(a.event.title, b.event.title);
    TextBeforeIff(a.event.title, b.event.title);
    assert plan.due[0].notify <==> FirstOfRun(plan.due, 0);
    assert plan.due[j].notify <==> FirstOfRun(plan.due, j);
  }

  // ---- the wake ----

  /** An event of the snapshot, starting within thirty-one days, has an unfired reminder that comes at `when`. */
  ghost predicate ReminderAhead(events: seq<CalendarEvent>, config: RemindersConfig, fired: set<string>, now: int,
                                event: CalendarEvent, lead: int, leadKey: int, when: int)
  {
    && event in events && Has(event, config, lead, leadKey) && KeyText(event, leadKey) !in fired
    && now < ComesAt(event, lead) == when && event.start * SECOND <= now + 31 * 24 * 3600 * SECOND
  }

  /** Today's digest instant if it lies ahead, or else tomorrow's. */
  predicate DigestAhead(config: RemindersConfig, zone: Zone, now: int, when: int) {
    zone.localDayOf(now).Some? &&
    var day := zone.localDayOf(now).value;
    zone.digestInstantOn(day, config.allDayDigestTime).Some? &&
    var today := zone.digestInstantOn(day, config.allDayDigestTime).value;
    now < when && (if now < today then when == today
                   else zone.digestInstantOn(day + 1, config.allDayDigestTime) == Some(when))
  }

  lemma PendingCovered(events: seq<CalendarEvent>, config: RemindersConfig, fired: set<string>, now: int,
                       event: CalendarEvent, lead: int, leadKey: int, when: int)
    requires AllValid(events) && ValidConfig(config)
    requires ReminderAhead(events, config, fired, now, event, lead, leadKey, when)
    ensures WakesBy(NextPending(events, config, fired, now), when)
  {
    var at :| 0 <= at < |events| && events[at] == event;
    var item := Item(event, lead, leadKey);
    OfferedIff(event, config, lead, leadKey);
    OfferShape(event, config, item);
    WakeCoversPending(events, |events|, config, fired, now, at, item);
  }

  lemma PendingExplained(events: seq<CalendarEvent>, config: RemindersConfig, fired: set<string>, now: int)
    returns (event: CalendarEvent, lead: int, leadKey: int)
    requires AllValid(events) && NextPending(events, config, fired, now).Some?
    ensures ReminderAhead(events, config, fired, now, event, lead, leadKey,
                          NextPending(events, config, fired, now).value)
  {
    var item;
    event, item := WakeIsPending(events, |events|, config, fired, now);
    var at :| 0 <= at < |events| && events[at] == event;
    lead, leadKey := item.leadSeconds, LeadKey(item);
    OfferedIsItem(event, config, item);
  }

  lemma DigestWakeIs(config: RemindersConfig, zone: Zone, now: int, wake: Option<int>)
    ensures var next := DigestWake(config, zone, now, wake);
      && (forall when :: DigestAhead(config, zone, now, when) ==> WakesBy(next, when))
      && (wake.Some? && now < wake.value ==> WakesBy(next, wake.value))
      && (next.Some? ==> next == wake || DigestAhead(config, zone, now, next.value))
  {
  }

  /** The wake is no later than any unfired reminder ahead and the next digest, and it is one of them; there is
      none only if there is neither. */
  lemma WakeIff(snapshot: CalendarSnapshot, config: RemindersConfig, zone: Zone, fired: set<string>, shown: Option<int>,
                now: int, plan: ReminderPlan)
    requires IsActivePlan(snapshot, config, zone, fired, shown, now, plan)
    ensures forall event, lead, leadKey, when ::
      ReminderAhead(snapshot.events, config, fired, now, event, lead, leadKey, when) ==> WakesBy(plan.nextWake, when)
    ensures forall when :: DigestAhead(config, zone, now, when) ==> WakesBy(plan.nextWake, when)
    ensures plan.nextWake.Some? ==>
      || DigestAhead(config, zone, now, plan.nextWake.value)
      || exists event, lead, leadKey ::
           ReminderAhead(snapshot.events, config, fired, now, event, lead, leadKey, plan.nextWake.value)
  {
    var pending := NextPending(snapshot.events, config, fired, now);
    DigestWakeIs(config, zone, now, pending);
    if pending.Some? {
      var event, lead, leadKey := PendingExplained(snapshot.events, config, fired, now);
    }
    forall event, lead, leadKey, when |
      ReminderAhead(snapshot.events, config, fired, now, event, lead, leadKey, when)
      ensures WakesBy(plan.nextWake, when)
    {
      PendingCovered(snapshot.events, config, fired, now, event, lead, leadKey, when);
    }
  }

  // ---- the digest ----

  /** The all-day event covers today: from the day it starts on to the day before the one it ends on. */
  predicate Covers(event: CalendarEvent, zone: Zone, today: int) {
    event.allDay && zone.localDayOf(event.start * SECOND).Some? &&
    var first := zone.localDayOf(event.start * SECOND).value;
    && first <= today
    && (today == first
        || (event.end > event.start && zone.localDayOf(event.end * SECOND).Some?
            && today < zone.localDayOf(event.end * SECOND).value))
  }

  /** The digest is shown now: its instant today has passed, and today's has not been shown. */
  predicate DigestNow(config: RemindersConfig, zone: Zone, shown: Option<int>, now: int) {
    zone.localDayOf(now).Some? &&
    var day := zone.localDayOf(now).value;
    && zone.digestInstantOn(day, config.allDayDigestTime).Some?
    && zone.digestInstantOn(day, config.allDayDigestTime).value <= now && shown != Some(day)
  }

  lemma CoverIff(event: CalendarEvent, zone: Zone, now: int)
    ensures AllDayEventCoversDate(event, zone, now) <==>
            zone.localDayOf(now).Some? && Covers(event, zone, zone.localDayOf(now).value)
  {
  }

  lemma {:induction false} CoveringCount(events: seq<CalendarEvent>, n: nat, zone: Zone, now: int, event: CalendarEvent)
    requires n <= |events|
    ensures multiset(CoveringEvents(events, n, zone, now))[event] ==
            if zone.localDayOf(now).Some? && Covers(event, zone, zone.localDayOf(now).value)
            then multiset(events[..n])[event] else 0
  {
    if n > 0 {
      CoveringCount(events, n - 1, zone, now, event);
      CoverIff(events[n - 1], zone, now);
      assert events[..n] == events[..n - 1] + [events[n - 1]];
    }
  }

  /** The digest lists each event that covers today as often as the snapshot holds it, once its instant has
      passed and unless it was shown today, and it is due exactly if it lists any. */
  lemma DigestTimes(snapshot: CalendarSnapshot, config: RemindersConfig, zone: Zone, fired: set<string>,
                    shown: Option<int>, now: int, plan: ReminderPlan, event: CalendarEvent)
    requires IsActivePlan(snapshot, config, zone, fired, shown, now, plan)
    ensures multiset(plan.digest)[event] ==
            if DigestNow(config, zone, shown, now) && Covers(event, zone, zone.localDayOf(now).value)
            then multiset(snapshot.events)[event] else 0
    ensures plan.digestDue <==> plan.digest != []
  {
    CoveringCount(snapshot.events, |snapshot.events|, zone, now, event);
    assert snapshot.events[..|snapshot.events|] == snapshot.events;
  }

  lemma {:induction false} CoveringAscends(events: seq<CalendarEvent>, n: nat, zone: Zone, now: int)
    requires n <= |events| && SortedByStart(events)
    ensures SortedByStart(CoveringEvents(events, n, zone, now))
    ensures forall e :: e in CoveringEvents(events, n, zone, now) ==> n > 0 && e.start <= events[n - 1].start
  {
    if n > 0 {
      CoveringAscends(events, n - 1, zone, now);
    }
  }

  /** The digest lists its events by start. */
  lemma DigestAscends(snapshot: CalendarSnapshot, config: RemindersConfig, zone: Zone, fired: set<string>,
                      shown: Option<int>, now: int, plan: ReminderPlan)
    requires IsActivePlan(snapshot, config, zone, fired, shown, now, plan)
    ensures SortedByStart(plan.digest)
  {
    CoveringAscends(snapshot.events, |snapshot.events|, zone, now);
  }

  lemma {:induction false} DateWasLeft(run: seq<Pass>, j: nat, day: int) returns (i: nat)
    requires IsRun(run) && j < |run| && run[j].lastDigestDate == Some(day)
    ensures i < j ==> run[i].plan.digestDue && run[i].zone.localDayOf(run[i].now) == Some(day)
    ensures i >= j ==> run[0].lastDigestDate == Some(day)
  {
    i := j;
    if 0 < j {
      assert DigestCarries(run, j);
      i := j - 1;
      if !run[j - 1].plan.digestDue {
        i := DateWasLeft(run, j - 1, day);
        i := if i < j - 1 then i else j;
      }
    }
  }

  /** The digest is not lost: once a pass plans at or after its instant with an event that covers the day, the
      digest has been shown by this pass or an earlier one on that day, unless it had been when the run began. */
  lemma DigestIsShown(run: seq<Pass>, j: nat, event: CalendarEvent, day: int) returns (i: nat)
    requires IsRun(run) && j < |run| && Planning(run[j]) && event in run[j].snapshot.events
    requires run[j].zone.localDayOf(run[j].now) == Some(day) && Covers(event, run[j].zone, day)
    requires DigestNow(run[j].config, run[j].zone, None, run[j].now)
    ensures i <= j ==> run[i].plan.digestDue && run[i].zone.localDayOf(run[i].now) == Some(day)
    ensures i > j ==> run[0].lastDigestDate == Some(day)
  {
    var p := run[j];
    if p.lastDigestDate == Some(day) {
      i := DateWasLeft(run, j, day);
      i := if i < j then i else j + 1;
    } else {
      i := j;
      PassOf(run, j);
      DigestTimes(p.snapshot, p.config, p.zone, PruneFiredKeys(p.firedBefore, p.now), p.lastDigestDate, p.now, p.plan,
                  event);
      assert event in multiset(p.plan.digest);
    }
  }

  // ---- pruning ----

  /** A fired key stays, whatever text it is, exactly if it names a start that lies less than five minutes back. */
  lemma PrunedIff(fired: set<string>, now: int, key: string)
    ensures key in PruneFiredKeys(fired, now) <==>
            key in fired &&
            exists start: UnixSeconds, front, middle, end, negative, zeros ::
              && Parts(key, front, middle, end) && Spells(middle, negative, zeros, start)
              && now < start * SECOND + 300 * SECOND
  {
    if ReminderKeyStart(key).Some? {
      KeyStartIff(key, ReminderKeyStart(key).value);
    }
    forall start: UnixSeconds, front, middle, end, negative, zeros |
      Parts(key, front, middle, end) && Spells(middle, negative, zeros, start)
      ensures ReminderKeyStart(key) == Some(start)
    {
      KeyStartIff(key, start);
    }
  }
}
