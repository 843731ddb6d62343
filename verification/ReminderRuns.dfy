/** What the reminder engine guarantees over whole runs of evaluation passes. */
module ReminderRuns {
  import opened Wrappers
  import opened CalendarTypes
  import opened ReminderKeys
  import opened ReminderPlanner
  import ReminderLeads
  import Sorting

  function KeysOf(due: seq<DueReminder>): set<string> {
    set d | d in due :: d.key
  }

  /** One pass of CalendarReminderMonitor::evaluate over an active monitor. */
  datatype Pass = Pass(
    now: int,
    snapshot: CalendarSnapshot,
    config: RemindersConfig,
    zone: Zone,
    lastDigestDate: Option<int>,
    firedBefore: set<string>,
    plan: ReminderPlan,
    firedAfter: set<string>)

  ghost predicate IsPass(p: Pass) {
    && ValidSnapshot(p.snapshot) && ValidConfig(p.config)
    && IsPlan(p.snapshot, p.config, p.zone, PruneFiredKeys(p.firedBefore, p.now), p.lastDigestDate, p.now, p.plan)
    && p.firedAfter == PruneFiredKeys(p.firedBefore, p.now) + KeysOf(p.plan.due)
  }

  predicate Planning(p: Pass) { p.config.enabled && p.snapshot.valid }

  /** The day whose digest has been shown, as the pass leaves it. */
  function DigestDateAfter(p: Pass): Option<int> {
    if p.plan.digestDue then p.zone.localDayOf(p.now) else p.lastDigestDate
  }

  predicate FiredNothing(p: Pass) { p.plan.due == [] }

  /** Before pass `i` the shell was restarted at `restart`: what pass `saved` recorded was loaded and pruned.
      Every pass that fires something is saved at once; those since may have pruned keys only. */
  ghost predicate Resumed(run: seq<Pass>, i: nat, saved: nat, restart: int)
    requires i < |run|
  {
    && saved < i && (forall k :: saved < k < i ==> FiredNothing(run[k]))
    && run[i - 1].now <= restart <= run[i].now
    && run[i].firedBefore == PruneFiredKeys(run[saved].firedAfter, restart)
  }

  /** A pass finds the last one's fired set, or what a restart has loaded of it. */
  ghost predicate Follows(run: seq<Pass>, i: nat)
    requires 0 < i < |run|
  {
    || run[i].firedBefore == run[i - 1].firedAfter
    || exists saved, restart :: Resumed(run, i, saved, restart)
  }

  ghost predicate PassAt(run: seq<Pass>, i: nat)
    requires i < |run|
  {
    IsPass(run[i])
  }

  predicate InOrder(run: seq<Pass>, i: nat, j: nat)
    requires i < |run| && j < |run|
  {
    run[i].now <= run[j].now
  }

  predicate DigestCarries(run: seq<Pass>, i: nat)
    requires 0 < i < |run|
  {
    run[i].lastDigestDate == DigestDateAfter(run[i - 1])
  }

  /** Passes in the order they happen, over any number of restarts: the clock does not run backwards,
      snapshot and configuration change freely, fired set and digest date carry over. */
  ghost predicate IsRun(run: seq<Pass>) {
    && (forall i :: 0 <= i < |run| ==> PassAt(run, i))
    && (forall i, j :: 0 <= i < j < |run| ==> InOrder(run, i, j))
    && (forall i :: 0 < i < |run| ==> Follows(run, i))
    && (forall i :: 0 < i < |run| ==> DigestCarries(run, i))
  }

  lemma PassOf(run: seq<Pass>, i: nat)
    requires IsRun(run) && i < |run|
    ensures IsPass(run[i])
  {
    assert PassAt(run, i);
  }

  lemma ClockOf(run: seq<Pass>, i: nat, j: nat)
    requires IsRun(run) && i <= j < |run|
    ensures run[i].now <= run[j].now
  {
    assert i < j ==> InOrder(run, i, j);
  }

  // ---- members of the scans ----

  lemma {:induction false} DueIsAmong(items: seq<DueReminder>, n: nat, fired: set<string>, now: int, i: nat)
    requires i < n <= |items| && IsDue(items[i], fired, now)
    ensures items[i] in DueAmong(items, n, fired, now)
  {
    if i < n - 1 {
      DueIsAmong(items, n - 1, fired, now, i);
    }
  }

  lemma DueIsOfEvent(event: CalendarEvent, config: RemindersConfig, fired: set<string>, now: int, item: DueReminder)
    requires item in Offers(event, config) && IsDue(item, fired, now)
    ensures item in DueOfEvent(event, config, fired, now)
  {
    var items := Offers(event, config);
    var i :| 0 <= i < |items| && items[i] == item;
    DueIsAmong(items, |items|, fired, now, i);
  }

  lemma ScanHolds(events: seq<CalendarEvent>, hi: nat, config: RemindersConfig, fired: set<string>, now: int,
                  item: DueReminder)
    requires 0 < hi <= |events|
    requires || item in DueScan(events, 0, hi - 1, config, fired, now)
             || item in DueOfEvent(events[hi - 1], config, fired, now)
    ensures item in DueScan(events, 0, hi, config, fired, now)
  {
  }

  lemma {:induction false} DueIsScanned(events: seq<CalendarEvent>, hi: nat, config: RemindersConfig,
                                        fired: set<string>, now: int,
                                        at: nat, item: DueReminder)
    requires at < hi <= |events| && item in Offers(events[at], config) && IsDue(item, fired, now)
    ensures item in DueScan(events, 0, hi, config, fired, now)
  {
    if at < hi - 1 {
      DueIsScanned(events, hi - 1, config, fired, now, at, item);
    } else {
      DueIsOfEvent(events[at], config, fired, now, item);
    }
    ScanHolds(events, hi, config, fired, now, item);
  }

  lemma {:induction false} SourceOfDue(events: seq<CalendarEvent>, hi: nat, config: RemindersConfig, fired: set<string>,
                                       now: int,
                                       item: DueReminder)
    returns (event: CalendarEvent)
    requires hi <= |events| && item in DueScan(events, 0, hi, config, fired, now)
    ensures event in events && item in Offers(event, config) && IsDue(item, fired, now)
  {
    event := events[hi - 1];
    if item in DueScan(events, 0, hi - 1, config, fired, now) {
      event := SourceOfDue(events, hi - 1, config, fired, now, item);
    } else {
      var items := Offers(event, config);
      DueAmongSource(items, |items|, fired, now);
    }
  }

  lemma SameKeys(due: seq<DueReminder>, scan: seq<DueReminder>)
    requires multiset(Unmarked(due)) == multiset(scan)
    ensures KeysOf(due) == KeysOf(scan)
  {
    var unmarked := Unmarked(due);
    forall d | d in due ensures d.key in KeysOf(scan) {
      var i :| 0 <= i < |due| && due[i] == d;
      assert unmarked[i] in multiset(unmarked);
      assert unmarked[i] in scan;
    }
    forall d | d in scan ensures d.key in KeysOf(due) {
      assert d in multiset(scan);
      assert d in unmarked;
      var i :| 0 <= i < |unmarked| && unmarked[i] == d;
      assert due[i] in due;
    }
  }

  /** The snapshot holds `event`, and `item` is one of its reminders under the pass's configuration. */
  predicate Offered(p: Pass, event: CalendarEvent, item: DueReminder) {
    p.config.enabled && p.snapshot.valid && event in p.snapshot.events && item in Offers(event, p.config)
  }

  /** Due in a pass: the test runs on the fired set as the pass has pruned it. */
  predicate DueIn(p: Pass, item: DueReminder) {
    IsDue(item, PruneFiredKeys(p.firedBefore, p.now), p.now)
  }

  lemma OfferedShape(p: Pass, event: CalendarEvent, item: DueReminder)
    requires IsPass(p) && Offered(p, event, item)
    ensures item == Offer(event, item.leadSeconds, item.fromDefaultLead)
    ensures ReminderLeads.InRange(item.leadSeconds)
    ensures item.due <= StartTick(event) <= item.due + ReminderLeads.MAX_LEAD_SECONDS * TICKS_PER_SECOND
  {
    OfferShape(event, p.config, item);
  }

  lemma DueIsPlanned(p: Pass, event: CalendarEvent, item: DueReminder)
    requires IsPass(p) && Offered(p, event, item) && DueIn(p, item)
    ensures item.key in KeysOf(p.plan.due)
  {
    var events, fired := p.snapshot.events, PruneFiredKeys(p.firedBefore, p.now);
    var at :| 0 <= at < |events| && events[at] == event;
    DueIsScanned(events, |events|, p.config, fired, p.now, at, item);
    assert item.key in KeysOf(AllDue(events, p.config, fired, p.now));
    SameKeys(p.plan.due, AllDue(events, p.config, fired, p.now));
  }

  // ---- at most once ----

  /** `key` names an instance of `event`, under any lead. */
  predicate KeyFor(key: string, event: CalendarEvent) {
    ReminderKeyStart(key) == Some(event.start)
  }

  lemma OfferedKey(p: Pass, event: CalendarEvent, item: DueReminder)
    requires IsPass(p) && Offered(p, event, item)
    ensures KeyFor(item.key, event)
  {
    OfferedShape(p, event, item);
    ReminderKeyStartOf(event, if item.fromDefaultLead then DEFAULT_LEAD_SENTINEL else item.leadSeconds);
  }

  /** A fired key survives pruning exactly until the grace after its event's start has passed. */
  lemma PruneKeepsUntilGrace(fired: set<string>, now: int, key: string, event: CalendarEvent)
    requires key in fired && KeyFor(key, event)
    ensures key in PruneFiredKeys(fired, now) <==> now < StartTick(event) + LATE_GRACE
  {
  }

  /** Restarting is invisible to the passes that follow: pruning at the restart and again at the pass
      leaves what pruning at the pass alone would. */
  lemma RestartIsInvisible(saved: set<string>, restart: int, now: int)
    requires restart <= now
    ensures PruneFiredKeys(PruneFiredKeys(saved, restart), now) == PruneFiredKeys(saved, now)
  {
    forall key | key in saved && !Forgotten(key, now) ensures !Forgotten(key, restart) {
    }
  }

  /** What is left at `t` of the keys on record after a pass. */
  function Left(p: Pass, t: int): set<string> { PruneFiredKeys(p.firedAfter, t) }

  lemma QuietPassOnlyPrunes(run: seq<Pass>, k: nat, t: int)
    requires IsRun(run) && k < |run| && FiredNothing(run[k]) && run[k].now <= t
    ensures Left(run[k], t) == PruneFiredKeys(run[k].firedBefore, t)
  {
    PassOf(run, k);
    assert run[k].firedAfter == PruneFiredKeys(run[k].firedBefore, run[k].now);
    RestartIsInvisible(run[k].firedBefore, run[k].now, t);
  }

  lemma ResumedKeeps(run: seq<Pass>, i: nat, saved: nat, restart: int, t: int)
    requires i < |run| && Resumed(run, i, saved, restart) && run[i].now <= t
    ensures PruneFiredKeys(run[i].firedBefore, t) == Left(run[saved], t)
  {
    RestartIsInvisible(run[saved].firedAfter, restart, t);
  }

  /** Whatever lies between, a pass starts from the keys the last one recorded, pruned. */
  lemma {:induction false} FiredSetCarries(run: seq<Pass>, i: nat, t: int)
    requires IsRun(run) && 0 < i < |run| && run[i].now <= t
    ensures PruneFiredKeys(run[i].firedBefore, t) == Left(run[i - 1], t)
    decreases i, 0
  {
    assert Follows(run, i);
    ClockOf(run, i - 1, i);
    if run[i].firedBefore != run[i - 1].firedAfter {
      var saved, restart :| Resumed(run, i, saved, restart);
      ResumedKeeps(run, i, saved, restart, t);
      QuietPasses(run, saved, i - 1, t);
    }
  }

  lemma {:induction false} QuietPasses(run: seq<Pass>, saved: nat, k: nat, t: int)
    requires IsRun(run) && saved <= k < |run| && run[k].now <= t
    requires forall j :: saved < j <= k ==> FiredNothing(run[j])
    ensures Left(run[k], t) == Left(run[saved], t)
    decreases k, 1
  {
    if saved < k {
      ClockOf(run, k - 1, k);
      QuietPasses(run, saved, k - 1, t);
      FiredSetCarries(run, k, t);
      QuietPassOnlyPrunes(run, k, t);
    }
  }

  lemma KeyStaysInPass(p: Pass, now: int, key: string, event: CalendarEvent)
    requires KeyFor(key, event) && p.now <= now && PruneFiredKeys(p.firedBefore, p.now) <= p.firedAfter
    requires key in p.firedAfter || StartTick(event) + LATE_GRACE <= p.now
    ensures key in Left(p, now) <==> now < StartTick(event) + LATE_GRACE
  {
    if key in p.firedAfter {
      PruneKeepsUntilGrace(p.firedAfter, now, key, event);
    }
  }

  lemma PassRecords(run: seq<Pass>, i: nat)
    requires IsRun(run) && i < |run|
    ensures PruneFiredKeys(run[i].firedBefore, run[i].now) <= run[i].firedAfter
    ensures KeysOf(run[i].plan.due) <= run[i].firedAfter
  {
    PassOf(run, i);
  }

  /** A key once recorded is still there when a later pass plans, exactly until its grace is over. */
  lemma {:induction false} FiredKeyStays(run: seq<Pass>, i: nat, j: nat, key: string, event: CalendarEvent)
    requires IsRun(run) && i < j < |run| && key in run[i].firedAfter && KeyFor(key, event)
    ensures key in PruneFiredKeys(run[j].firedBefore, run[j].now) <==> run[j].now < StartTick(event) + LATE_GRACE
  {
    PassRecords(run, j - 1);
    ClockOf(run, j - 1, j);
    FiredSetCarries(run, j, run[j].now);
    if i + 1 < j {
      FiredKeyStays(run, i, j - 1, key, event);
    }
    KeyStaysInPass(run[j - 1], run[j].now, key, event);
  }

  predicate AtBoundary(item: DueReminder, now: int) {
    item.leadSeconds == 0 && now == StartTick(item.event) + LATE_GRACE
  }

  /** Once recorded as fired, a reminder is planned again in a later pass if and only if it has no
      lead and the pass runs at exactly the end of the grace after its event's start. */
  lemma RepeatsOnlyAtBoundary(run: seq<Pass>, i: nat, j: nat, event: CalendarEvent, item: DueReminder)
    requires IsRun(run) && i < j < |run| && Offered(run[j], event, item)
    requires item.key in run[i].firedAfter
    ensures DueIn(run[j], item) <==> AtBoundary(item, run[j].now)
  {
    PassOf(run, j);
    OfferedShape(run[j], event, item);
    OfferedKey(run[j], event, item);
    FiredKeyStays(run, i, j, item.key, event);
  }

  predicate Notifies(due: seq<DueReminder>, i: int, key: string) {
    0 <= i < |due| && due[i].notify && due[i].key == key
  }

  /** An item with the least lead of its (start, title) group. */
  predicate Leads(due: seq<DueReminder>, item: DueReminder) {
    item in due && forall other :: other in due && Group(other) == Group(item) ==> item.leadSeconds <= other.leadSeconds
  }

  /** Due items that share a key and lead their groups have the same title. */
  ghost predicate TitlesAgree(due: seq<DueReminder>) {
    forall a, b :: Leads(due, a) && Leads(due, b) && a.key == b.key ==> a.event.title == b.event.title
  }

  lemma ItemSource(p: Pass, i: nat) returns (event: CalendarEvent, item: DueReminder)
    requires IsPass(p) && i < |p.plan.due|
    ensures Offered(p, event, item) && DueIn(p, item) && p.plan.due[i].(notify := true) == item
  {
    var events, fired := p.snapshot.events, PruneFiredKeys(p.firedBefore, p.now);
    item := Unmarked(p.plan.due)[i];
    assert item in multiset(Unmarked(p.plan.due));
    assert item in multiset(AllDue(events, p.config, fired, p.now));
    event := SourceOfDue(events, |events|, p.config, fired, p.now, item);
    OfferShape(event, p.config, item);
  }

  /** What notifies leads its group. */
  lemma NotifiedLeads(due: seq<DueReminder>, i: nat)
    requires Sorting.SortedBy(due, DueBefore) && Collapsed(due) && i < |due| && due[i].notify
    ensures Leads(due, due[i])
  {
    var first := OneNotificationPerGroup(due, i);
  }

  lemma PlanIsOrdered(p: Pass)
    requires IsPass(p)
    ensures Sorting.SortedBy(p.plan.due, DueBefore) && Collapsed(p.plan.due)
  {
  }

  lemma SameKeySameStart(p: Pass, i: nat, j: nat)
    requires IsPass(p) && i < |p.plan.due| && j < |p.plan.due| && p.plan.due[i].key == p.plan.due[j].key
    ensures p.plan.due[i].event.start == p.plan.due[j].event.start
  {
    var e1, a := ItemSource(p, i);
    var e2, b := ItemSource(p, j);
    OfferedShape(p, e1, a);
    OfferedShape(p, e2, b);
    KeyInjective(EventId(e1), e1.start, if a.fromDefaultLead then DEFAULT_LEAD_SENTINEL else a.leadSeconds,
                 EventId(e2), e2.start, if b.fromDefaultLead then DEFAULT_LEAD_SENTINEL else b.leadSeconds);
  }

  /** A key that notifies twice in a pass belongs to two due items with different titles, each with the
      least lead of its group. */
  lemma TwiceOnlyWithTwoTitles(p: Pass, i: nat, j: nat, key: string)
    requires IsPass(p) && i != j && Notifies(p.plan.due, i, key) && Notifies(p.plan.due, j, key)
    ensures var a, b := p.plan.due[i], p.plan.due[j];
      Leads(p.plan.due, a) && Leads(p.plan.due, b) && a.event.title != b.event.title
  {
    PlanIsOrdered(p);
    NotifiedLeads(p.plan.due, i);
    NotifiedLeads(p.plan.due, j);
    SameKeySameStart(p, i, j);
    var first := OneNotificationPerGroup(p.plan.due, i);
  }

  /** Within a pass no key notifies twice. */
  lemma OnceWithinPass(p: Pass, i: nat, j: nat, key: string)
    requires IsPass(p) && TitlesAgree(p.plan.due)
    requires Notifies(p.plan.due, i, key) && Notifies(p.plan.due, j, key)
    ensures i == j
  {
    if i != j {
      TwiceOnlyWithTwoTitles(p, i, j, key);
    }
  }

  /** No zero-lead reminder is due in the pass at exactly the end of its grace. */
  predicate OffBoundary(p: Pass) {
    forall item :: item in p.plan.due ==> !AtBoundary(item, p.now)
  }

  function NotifiedKeys(due: seq<DueReminder>): seq<string> {
    if due == [] then []
    else NotifiedKeys(due[..|due| - 1]) + if due[|due| - 1].notify then [due[|due| - 1].key] else []
  }

  /** Every key the first `n` passes of a run notify, in order. */
  function NotificationLog(run: seq<Pass>, n: nat): seq<string>
    requires n <= |run|
  {
    if n == 0 then [] else NotificationLog(run, n - 1) + NotifiedKeys(run[n - 1].plan.due)
  }

  predicate Distinct(keys: seq<string>) {
    forall i, j :: 0 <= i < j < |keys| ==> keys[i] != keys[j]
  }

  lemma {:induction false} NotifiedKeySource(due: seq<DueReminder>, key: string) returns (i: nat)
    requires key in NotifiedKeys(due)
    ensures Notifies(due, i, key)
  {
    i := |due| - 1;
    if key in NotifiedKeys(due[..|due| - 1]) {
      i := NotifiedKeySource(due[..|due| - 1], key);
    }
  }

  lemma {:induction false} LoggedKeySource(run: seq<Pass>, n: nat, key: string) returns (i: nat)
    requires n <= |run| && key in NotificationLog(run, n)
    ensures i < n && key in KeysOf(run[i].plan.due)
  {
    i := n - 1;
    if key in NotificationLog(run, i) {
      i := LoggedKeySource(run, i, key);
    } else {
      NotifiedIsPlanned(run[i].plan.due, key);
    }
  }

  lemma NotifiedIsPlanned(due: seq<DueReminder>, key: string)
    requires key in NotifiedKeys(due)
    ensures key in KeysOf(due)
  {
    var k := NotifiedKeySource(due, key);
    assert due[k] in due;
  }

  lemma {:induction false} PrefixNotifiesOnce(due: seq<DueReminder>, n: nat)
    requires n <= |due|
    requires forall i, j, key :: Notifies(due, i, key) && Notifies(due, j, key) ==> i == j
    ensures Distinct(NotifiedKeys(due[..n]))
  {
    if n > 0 {
      PrefixNotifiesOnce(due, n - 1);
      assert due[..n][..n - 1] == due[..n - 1];
      var last := due[n - 1];
      if last.notify && last.key in NotifiedKeys(due[..n - 1]) {
        var k := NotifiedKeySource(due[..n - 1], last.key);
        assert Notifies(due, k, last.key) && Notifies(due, n - 1, last.key);
      }
    }
  }

  lemma PassNotifiesOnce(p: Pass)
    requires IsPass(p) && TitlesAgree(p.plan.due)
    ensures Distinct(NotifiedKeys(p.plan.due))
  {
    var due := p.plan.due;
    forall i, j, key | Notifies(due, i, key) && Notifies(due, j, key) ensures i == j {
      OnceWithinPass(p, i, j, key);
    }
    PrefixNotifiesOnce(due, |due|);
    assert due[..|due|] == due;
  }

  lemma ItemOf(run: seq<Pass>, j: nat, k: nat) returns (event: CalendarEvent, item: DueReminder)
    requires IsRun(run) && j < |run| && k < |run[j].plan.due|
    ensures Offered(run[j], event, item) && DueIn(run[j], item) && run[j].plan.due[k].(notify := true) == item
  {
    PassOf(run, j);
    event, item := ItemSource(run[j], k);
  }

  /** In any run at all, a key planned in two passes is a zero-lead reminder whose second pass runs at
      exactly the end of its grace: that instant is the only exception. */
  lemma PlannedAgainOnlyAtBoundary(run: seq<Pass>, i: nat, j: nat, k: nat)
    requires IsRun(run) && i < j < |run| && k < |run[j].plan.due| && run[j].plan.due[k].key in KeysOf(run[i].plan.due)
    ensures AtBoundary(run[j].plan.due[k], run[j].now)
  {
    var event, item := ItemOf(run, j, k);
    PassRecords(run, i);
    RepeatsOnlyAtBoundary(run, i, j, event, item);
  }

  lemma NotAgainOffBoundary(run: seq<Pass>, i: nat, j: nat, key: string)
    requires IsRun(run) && i < j < |run| && OffBoundary(run[j])
    requires key in KeysOf(run[i].plan.due)
    ensures key !in KeysOf(run[j].plan.due)
  {
    if key in KeysOf(run[j].plan.due) {
      var k :| 0 <= k < |run[j].plan.due| && run[j].plan.due[k].key == key;
      PlannedAgainOnlyAtBoundary(run, i, j, k);
    }
  }

  lemma NothingNotifiedAgain(run: seq<Pass>, n: nat, key: string)
    requires IsRun(run) && n < |run| && OffBoundary(run[n]) && key in NotificationLog(run, n)
    ensures key !in NotifiedKeys(run[n].plan.due)
  {
    if key in NotifiedKeys(run[n].plan.due) {
      var m := LoggedKeySource(run, n, key);
      NotifiedIsPlanned(run[n].plan.due, key);
      NotAgainOffBoundary(run, m, n, key);
    }
  }

  lemma DistinctTogether(earlier: seq<string>, latest: seq<string>)
    requires Distinct(earlier) && Distinct(latest) && forall key :: key in earlier ==> key !in latest
    ensures Distinct(earlier + latest)
  {
    var all := earlier + latest;
    forall i, j | 0 <= i < j < |all| ensures all[i] != all[j] {
      assert i < |earlier| ==> all[i] in earlier;
      assert j >= |earlier| ==> all[j] in latest;
    }
  }

  /** The two things that can make a key notify twice do not happen in the pass. */
  ghost predicate Clean(run: seq<Pass>, i: nat)
    requires i < |run|
  {
    OffBoundary(run[i]) && TitlesAgree(run[i].plan.due)
  }

  lemma CleanPassAddsNew(run: seq<Pass>, n: nat)
    requires IsRun(run) && n < |run| && Clean(run, n) && Distinct(NotificationLog(run, n))
    ensures Distinct(NotificationLog(run, n) + NotifiedKeys(run[n].plan.due))
  {
    var earlier, latest := NotificationLog(run, n), NotifiedKeys(run[n].plan.due);
    forall key | key in earlier ensures key !in latest {
      NothingNotifiedAgain(run, n, key);
    }
    PassOf(run, n);
    PassNotifiesOnce(run[n]);
    DistinctTogether(earlier, latest);
  }

  /** At most once over every run: whatever snapshots, configurations, restarts and (nondecreasing)
      instants it is made of, no reminder key is notified twice, pruning notwithstanding. */
  lemma {:induction false} AtMostOnce(run: seq<Pass>, n: nat)
    requires IsRun(run) && n <= |run|
    requires forall i :: 0 <= i < n ==> Clean(run, i)
    ensures Distinct(NotificationLog(run, n))
  {
    if n > 0 {
      AtMostOnce(run, n - 1);
      assert Clean(run, n - 1);
      CleanPassAddsNew(run, n - 1);
    }
  }

  // ---- no lost wake ----

  lemma {:induction false} WakeNeverLater(items: seq<DueReminder>, n: nat, fired: set<string>, now: int,
                                          wake: Option<int>)
    requires n <= |items| && wake.Some?
    ensures var w := WakeAmong(items, n, fired, now, wake); w.Some? && w.value <= wake.value
  {
    if n > 0 {
      WakeNeverLater(items, n - 1, fired, now, wake);
    }
  }

  lemma {:induction false} WakeCovers(items: seq<DueReminder>, n: nat, fired: set<string>, now: int, wake: Option<int>,
                                      i: nat)
    requires i < n <= |items| && IsPending(items[i], fired, now)
    ensures var w := WakeAmong(items, n, fired, now, wake); w.Some? && w.value <= items[i].due
  {
    if i < n - 1 {
      WakeCovers(items, n - 1, fired, now, wake, i);
    }
  }

  /** The wake is no later than some instant. */
  predicate WakesBy(wake: Option<int>, when: int) { wake.Some? && wake.value <= when }

  lemma EventWakesBy(event: CalendarEvent, config: RemindersConfig, fired: set<string>, now: int, wake: Option<int>,
                     item: DueReminder)
    requires item in Offers(event, config) && IsPending(item, fired, now)
    ensures WakesBy(WakeOfEvent(event, config, fired, now, wake), item.due)
  {
    var items := Offers(event, config);
    var i :| 0 <= i < |items| && items[i] == item;
    WakeCovers(items, |items|, fired, now, wake, i);
  }

  lemma EventKeepsWake(event: CalendarEvent, config: RemindersConfig, fired: set<string>, now: int, wake: Option<int>,
                       when: int)
    requires WakesBy(wake, when)
    ensures WakesBy(WakeOfEvent(event, config, fired, now, wake), when)
  {
    WakeNeverLater(Offers(event, config), |Offers(event, config)|, fired, now, wake);
  }

  lemma ScanWakesBy(events: seq<CalendarEvent>, hi: nat, config: RemindersConfig, fired: set<string>, now: int,
                    item: DueReminder)
    requires 0 < hi <= |events| && InWindow(events[hi - 1], now)
    requires item in Offers(events[hi - 1], config) && IsPending(item, fired, now)
    ensures WakesBy(WakeScan(events, 0, hi, config, fired, now), item.due)
  {
    EventWakesBy(events[hi - 1], config, fired, now, WakeScan(events, 0, hi - 1, config, fired, now), item);
  }

  lemma ScanKeepsWake(events: seq<CalendarEvent>, hi: nat, config: RemindersConfig, fired: set<string>, now: int,
                      when: int)
    requires 0 < hi <= |events| && WakesBy(WakeScan(events, 0, hi - 1, config, fired, now), when)
    ensures WakesBy(WakeScan(events, 0, hi, config, fired, now), when)
  {
    EventKeepsWake(events[hi - 1], config, fired, now, WakeScan(events, 0, hi - 1, config, fired, now), when);
  }

  /** The scan's wake is never later than a pending reminder inside the window. */
  lemma {:induction false} WakeCoversPending(events: seq<CalendarEvent>, hi: nat, config: RemindersConfig,
                                             fired: set<string>, now: int, at: nat, item: DueReminder)
    requires at < hi <= |events| && InWindow(events[at], now)
    requires item in Offers(events[at], config) && IsPending(item, fired, now)
    ensures WakesBy(WakeScan(events, 0, hi, config, fired, now), item.due)
  {
    if at < hi - 1 {
      WakeCoversPending(events, hi - 1, config, fired, now, at, item);
      ScanKeepsWake(events, hi, config, fired, now, item.due);
    } else {
      ScanWakesBy(events, hi, config, fired, now, item);
    }
  }

  lemma {:induction false} WakeSource(items: seq<DueReminder>, n: nat, fired: set<string>, now: int, wake: Option<int>)
    returns (item: DueReminder)
    requires n <= |items| && WakeAmong(items, n, fired, now, wake) != wake
    ensures item in items && IsPending(item, fired, now) && WakeAmong(items, n, fired, now, wake) == Some(item.due)
  {
    item := items[n - 1];
    if WakeAmong(items, n, fired, now, wake) == WakeAmong(items, n - 1, fired, now, wake) {
      item := WakeSource(items, n - 1, fired, now, wake);
    }
  }

  /** The scan's wake is the due instant of some pending reminder inside the window. */
  lemma {:induction false} WakeIsPending(events: seq<CalendarEvent>, hi: nat, config: RemindersConfig,
                                         fired: set<string>, now: int)
    returns (event: CalendarEvent, item: DueReminder)
    requires hi <= |events| && WakeScan(events, 0, hi, config, fired, now).Some?
    ensures event in events && InWindow(event, now) && item in Offers(event, config)
    ensures IsPending(item, fired, now) && WakeScan(events, 0, hi, config, fired, now) == Some(item.due)
  {
    event := events[hi - 1];
    var earlier := WakeScan(events, 0, hi - 1, config, fired, now);
    if WakeScan(events, 0, hi, config, fired, now) == earlier {
      event, item := WakeIsPending(events, hi - 1, config, fired, now);
    } else {
      var items := Offers(event, config);
      item := WakeSource(items, |items|, fired, now, earlier);
    }
  }

  /** A planned wake lies strictly ahead. */
  lemma WakeIsAhead(p: Pass)
    requires IsPass(p) && p.plan.nextWake.Some?
    ensures p.now < p.plan.nextWake.value
  {
    var events, fired := p.snapshot.events, PruneFiredKeys(p.firedBefore, p.now);
    if NextPending(events, p.config, fired, p.now).Some? {
      var event, item := WakeIsPending(events, |events|, p.config, fired, p.now);
    }
  }

  lemma LaterDueWasPending(p: Pass, t: int, event: CalendarEvent, item: DueReminder)
    requires IsPass(p) && Offered(p, event, item)
    requires p.now < item.due <= t < p.now + DAY
    requires item.key !in PruneFiredKeys(p.firedBefore, p.now)
    ensures p.plan.nextWake.Some? && p.plan.nextWake.value <= t
  {
    var events, fired := p.snapshot.events, PruneFiredKeys(p.firedBefore, p.now);
    OfferedShape(p, event, item);
    var at :| 0 <= at < |events| && events[at] == event;
    WakeCoversPending(events, |events|, p.config, fired, p.now, at, item);
  }

  /** Between a pass and its wake, and for at most a day, planning the same snapshot again finds no
      reminder due, the boundary instant apart. */
  lemma NothingDueBeforeWake(p: Pass, t: int, event: CalendarEvent, item: DueReminder)
    requires IsPass(p) && Offered(p, event, item)
    requires p.now <= t < p.now + DAY
    requires p.plan.nextWake.Some? ==> t < p.plan.nextWake.value
    ensures IsDue(item, PruneFiredKeys(p.firedAfter, t), t) ==> AtBoundary(item, t)
  {
    OfferedShape(p, event, item);
    if item.key in p.firedAfter {
      OfferedKey(p, event, item);
      PruneKeepsUntilGrace(p.firedAfter, t, item.key, event);
    } else if item.due <= p.now {
      if DueIn(p, item) {
        DueIsPlanned(p, event, item);
      }
    } else if item.due <= t {
      LaterDueWasPending(p, t, event, item);
    }
  }

  // ---- the digest ----

  /** What the engine relies on from the time zone database: local days do not run backwards, nor do
      the digest instants of successive days, and tomorrow's lies ahead. */
  ghost predicate OrderedZone(zone: Zone, hhmm: string) {
    && (forall t :: zone.localDayOf(t).Some?)
    && (forall t, u :: t <= u ==> zone.localDayOf(t).value <= zone.localDayOf(u).value)
    && (forall d, e :: zone.digestInstantOn(d, hhmm).Some? <==> zone.digestInstantOn(e, hhmm).Some?)
    && (forall d, e :: d <= e && zone.digestInstantOn(d, hhmm).Some? && zone.digestInstantOn(e, hhmm).Some? ==>
          zone.digestInstantOn(d, hhmm).value <= zone.digestInstantOn(e, hhmm).value)
    && (forall t :: zone.digestInstantOn(zone.localDayOf(t).value + 1, hhmm).Some? ==>
          t < zone.digestInstantOn(zone.localDayOf(t).value + 1, hhmm).value)
  }

  lemma {:induction false} CoverDependsOnDay(events: seq<CalendarEvent>, n: nat, zone: Zone, now: int, t: int)
    requires n <= |events| && zone.localDayOf(now) == zone.localDayOf(t)
    ensures CoveringEvents(events, n, zone, now) == CoveringEvents(events, n, zone, t)
  {
    if n > 0 {
      CoverDependsOnDay(events, n - 1, zone, now, t);
    }
  }

  /** The digest is not due again before the wake either: not twice on one day, nor early on the next. */
  lemma NoDigestBeforeWake(p: Pass, t: int)
    requires IsPass(p) && Planning(p) && OrderedZone(p.zone, p.config.allDayDigestTime)
    requires p.now <= t && (p.plan.nextWake.Some? ==> t < p.plan.nextWake.value)
    ensures DigestOf(p.snapshot.events, p.config, p.zone, DigestDateAfter(p), t) == []
  {
    var hhmm := p.config.allDayDigestTime;
    var day, later := p.zone.localDayOf(p.now).value, p.zone.localDayOf(t).value;
    if p.zone.digestInstantOn(later, hhmm).Some? {
      assert p.zone.digestInstantOn(day, hhmm).Some? && p.zone.digestInstantOn(day + 1, hhmm).Some?;
      var at, next := p.zone.digestInstantOn(day, hhmm).value, p.zone.digestInstantOn(day + 1, hhmm).value;
      assert day <= later;
      if p.now < at {
        assert t < at <= p.zone.digestInstantOn(later, hhmm).value;
      } else if day < later {
        assert t < next <= p.zone.digestInstantOn(later, hhmm).value;
      } else {
        CoverDependsOnDay(p.snapshot.events, |p.snapshot.events|, p.zone, p.now, t);
      }
    }
  }

  lemma DigestDay(run: seq<Pass>, i: nat)
    requires IsRun(run) && i < |run| && run[i].plan.digestDue
    ensures run[i].zone.localDayOf(run[i].now) == Some(DayOf(run[i])) && run[i].lastDigestDate != Some(DayOf(run[i]))
  {
    PassOf(run, i);
  }

  function DayOf(p: Pass): int {
    if p.zone.localDayOf(p.now).Some? then p.zone.localDayOf(p.now).value else 0
  }

  /** The digest date is that of the last pass that showed a digest. */
  lemma {:induction false} DigestDateStays(run: seq<Pass>, i: nat, j: nat) returns (k: nat)
    requires IsRun(run) && i < j < |run| && run[i].plan.digestDue
    ensures i <= k < j && run[k].plan.digestDue && run[j].lastDigestDate == Some(DayOf(run[k]))
  {
    var before := run[j - 1];
    assert DigestCarries(run, j);
    k := j - 1;
    if before.plan.digestDue {
      DigestDay(run, k);
    } else {
      k := DigestDateStays(run, i, j - 1);
    }
  }

  predicate DigestsInOrder(p: Pass, q: Pass) {
    p.plan.digestDue && q.plan.digestDue ==> DayOf(p) <= DayOf(q)
  }

  /** Over every run the digest is shown at most once per local day, whatever zones the passes run in,
      as long as these days do not run backwards. */
  lemma DigestOncePerDay(run: seq<Pass>, i: nat, j: nat)
    requires IsRun(run) && i < j < |run| && run[i].plan.digestDue && run[j].plan.digestDue
    requires forall k, l :: 0 <= k < l < |run| ==> DigestsInOrder(run[k], run[l])
    ensures DayOf(run[i]) < DayOf(run[j])
  {
    var k := DigestDateStays(run, i, j);
    assert DigestsInOrder(run[k], run[j]) && (i < k ==> DigestsInOrder(run[i], run[k]));
    DigestDay(run, j);
  }

  // ---- fired on time ----

  /** A reminder that comes due between two passes no more than the grace apart is on record after
      the second, within the grace of its due instant. */
  lemma FiredIfPolled(run: seq<Pass>, k: nat, event: CalendarEvent, item: DueReminder)
    requires IsRun(run) && 0 < k < |run| && Offered(run[k], event, item)
    requires run[k - 1].now < item.due <= run[k].now <= run[k - 1].now + LATE_GRACE
    ensures item.key in run[k].firedAfter && run[k].now < item.due + LATE_GRACE
  {
    PassOf(run, k);
    RecordedInTime(run[k], event, item);
  }

  lemma FindCrossing(run: seq<Pass>, tick: int) returns (k: nat)
    requires run != [] && run[0].now < tick <= run[|run| - 1].now
    ensures 0 < k < |run| && run[k - 1].now < tick <= run[k].now
  {
    k := 1;
    while run[k].now < tick
      invariant 0 < k < |run| && run[k - 1].now < tick
      decreases |run| - k
    {
      k := k + 1;
    }
  }

  /** A key on record has been planned by some pass of the run, or was on record when it began. */
  lemma {:induction false} RecordedWasPlanned(run: seq<Pass>, k: nat, key: string) returns (m: nat)
    requires IsRun(run) && k < |run| && key in run[k].firedAfter
    ensures m <= k && (key in KeysOf(run[m].plan.due) || (m == 0 && key in run[0].firedBefore))
  {
    m := k;
    PassOf(run, k);
    if key !in KeysOf(run[k].plan.due) && 0 < k {
      var before := RecordedBefore(run, k, key);
      m := RecordedWasPlanned(run, before, key);
    }
  }

  lemma RecordedBefore(run: seq<Pass>, k: nat, key: string) returns (before: nat)
    requires IsRun(run) && 0 < k < |run| && key in run[k].firedBefore
    ensures before < k && key in run[before].firedAfter
  {
    assert Follows(run, k);
    before := k - 1;
    if key !in run[k - 1].firedAfter {
      var saved, restart :| Resumed(run, k, saved, restart);
      before := saved;
    }
  }

  /** When passes are at most the grace apart, every reminder that comes due during the run and that the
      first pass after this instant knows of is on record as fired within the grace of it, because some pass
      until then has planned it, unless it was on record when the run began. */
  lemma EveryReminderFires(run: seq<Pass>, event: CalendarEvent, item: DueReminder) returns (k: nat, m: nat)
    requires IsRun(run) && run != []
    requires forall i :: 0 < i < |run| ==> run[i].now <= run[i - 1].now + LATE_GRACE
    requires forall i :: 0 < i < |run| && run[i - 1].now < item.due <= run[i].now ==> Offered(run[i], event, item)
    requires run[0].now < item.due <= run[|run| - 1].now
    ensures k < |run| && item.due <= run[k].now < item.due + LATE_GRACE && item.key in run[k].firedAfter
    ensures m <= k && (item.key in KeysOf(run[m].plan.due) || (m == 0 && item.key in run[0].firedBefore))
  {
    k := FindCrossing(run, item.due);
    FiredIfPolled(run, k, event, item);
    m := RecordedWasPlanned(run, k, item.key);
  }

  lemma WokenInTime(p: Pass, t: int, event: CalendarEvent, item: DueReminder)
    requires IsPass(p) && Offered(p, event, item) && item.key !in p.firedAfter
    requires p.now < item.due && t <= p.now + DAY + LATE_GRACE
    requires p.plan.nextWake.Some? ==> t <= p.plan.nextWake.value + LATE_GRACE
    ensures t <= item.due + LATE_GRACE
  {
    if item.due < p.now + DAY {
      LaterDueWasPending(p, item.due, event, item);
    }
  }

  lemma RecordedInTime(p: Pass, event: CalendarEvent, item: DueReminder)
    requires IsPass(p) && Offered(p, event, item) && item.due <= p.now <= item.due + LATE_GRACE
    ensures item.key in p.firedAfter
  {
    OfferedShape(p, event, item);
    if item.key !in PruneFiredKeys(p.firedBefore, p.now) {
      DueIsPlanned(p, event, item);
    }
  }

  lemma RecordedWhenWoken(p: Pass, q: Pass, event: CalendarEvent, item: DueReminder)
    requires IsPass(p) && IsPass(q) && Offered(p, event, item) && Offered(q, event, item)
    requires p.now < item.due <= q.now <= p.now + DAY + LATE_GRACE
    requires p.plan.nextWake.Some? ==> q.now <= p.plan.nextWake.value + LATE_GRACE
    requires item.key !in p.firedAfter
    ensures item.key in q.firedAfter && q.now <= item.due + LATE_GRACE
  {
    WokenInTime(p, q.now, event, item);
    RecordedInTime(q, event, item);
  }

  lemma PassesAround(run: seq<Pass>, k: nat) returns (p: Pass, q: Pass)
    requires IsRun(run) && 0 < k < |run|
    ensures p == run[k - 1] && q == run[k] && IsPass(p) && IsPass(q)
  {
    p, q := run[k - 1], run[k];
    assert PassAt(run, k - 1) && PassAt(run, k);
  }

  /** It is enough that each pass runs no later than the grace after the wake the last one armed, or
      after a day: a reminder both passes know of is still on record in time. */
  lemma FiredIfWoken(run: seq<Pass>, k: nat, event: CalendarEvent, item: DueReminder)
    requires IsRun(run) && 0 < k < |run| && Offered(run[k - 1], event, item) && Offered(run[k], event, item)
    requires run[k - 1].now < item.due <= run[k].now <= run[k - 1].now + DAY + LATE_GRACE
    requires run[k - 1].plan.nextWake.Some? ==> run[k].now <= run[k - 1].plan.nextWake.value + LATE_GRACE
    requires item.key !in run[k - 1].firedAfter
    ensures item.key in run[k].firedAfter && run[k].now <= item.due + LATE_GRACE
  {
    var p, q := PassesAround(run, k);
    RecordedWhenWoken(p, q, event, item);
  }
}
