/** src/calendar/calendar_reminders.cpp: the two ways a reminder key can notify twice, and that they are real. */
module ReminderRepeats {
  import opened Wrappers
  import opened CalendarTypes
  import opened ReminderKeys
  import opened ReminderPlanner
  import opened ReminderRuns
  import Sorting

  // ---- two titles under one key ----

  /** No other reminder of its (start, title) group has as small a lead. */
  predicate LeadsAlone(due: seq<DueReminder>, item: DueReminder) {
    item in due
    && forall other :: other in due && Group(other) == Group(item) && other.key != item.key ==>
      item.leadSeconds < other.leadSeconds
  }

  lemma LeaderNotifies(due: seq<DueReminder>, item: DueReminder) returns (i: nat)
    requires Sorting.SortedBy(due, DueBefore) && Collapsed(due) && LeadsAlone(due, item)
    ensures Notifies(due, i, item.key) && Group(due[i]) == Group(item)
  {
    var at :| 0 <= at < |due| && due[at] == item;
    i := OneNotificationPerGroup(due, at);
    assert due[i] in due;
  }

  /** Due items that share a key but not a title, each alone in front of its group, make the key notify twice. */
  lemma TwoTitlesNotifyTwice(p: Pass, a: DueReminder, b: DueReminder) returns (i: nat, j: nat)
    requires IsPass(p) && LeadsAlone(p.plan.due, a) && LeadsAlone(p.plan.due, b)
    requires a.key == b.key && a.event.title != b.event.title
    ensures i != j && Notifies(p.plan.due, i, a.key) && Notifies(p.plan.due, j, a.key)
  {
    PlanIsOrdered(p);
    i := LeaderNotifies(p.plan.due, a);
    j := LeaderNotifies(p.plan.due, b);
  }

  ghost predicate NotifiesTwice(due: seq<DueReminder>, key: string) {
    exists i, j :: i != j && Notifies(due, i, key) && Notifies(due, j, key)
  }

  /** Two leaders of their groups that share the key and not the title. */
  predicate TwoTitles(items: seq<DueReminder>, key: string, a: DueReminder, b: DueReminder) {
    Leads(items, a) && Leads(items, b) && a.key == key == b.key && a.event.title != b.event.title
  }

  // ---- plans that differ in the order of equal elements ----

  predicate SameRank(a: DueReminder, b: DueReminder) {
    Group(a) == Group(b) && a.leadSeconds == b.leadSeconds && a.notify == b.notify
  }

  predicate SameRanks(due: seq<DueReminder>, other: seq<DueReminder>) {
    |due| == |other| && forall k :: 0 <= k < |due| ==> SameRank(due[k], other[k])
  }

  lemma RanksKeepOrder(due: seq<DueReminder>, other: seq<DueReminder>)
    requires SameRanks(due, other) && Sorting.SortedBy(due, DueBefore) && Collapsed(due)
    ensures Sorting.SortedBy(other, DueBefore) && Collapsed(other)
  {
    forall i, j | 0 <= i < j < |other| ensures !DueBefore(other[j], other[i]) {
      assert SameRank(due[i], other[i]) && SameRank(due[j], other[j]) && !DueBefore(due[j], due[i]);
    }
    forall i | 0 <= i < |other| ensures other[i].notify <==> FirstOfRun(other, i) {
      assert SameRank(due[i], other[i]) && (i > 0 ==> SameRank(due[i - 1], other[i - 1]));
      assert due[i].notify <==> FirstOfRun(due, i);
    }
  }

  /** Items `i` and `j` trade places; the marks stay where they are. */
  function Traded(due: seq<DueReminder>, i: nat, j: nat): seq<DueReminder>
    requires i < |due| && j < |due|
  {
    due[i := due[j].(notify := due[i].notify)][j := due[i].(notify := due[j].notify)]
  }

  lemma TradeKeepsItems<T>(s: seq<T>, i: nat, j: nat)
    requires i < |s| && j < |s|
    ensures multiset(s[i := s[j]][j := s[i]]) == multiset(s)
  {
  }

  lemma TradeKeepsUnmarked(due: seq<DueReminder>, i: nat, j: nat)
    requires i < |due| && j < |due|
    ensures multiset(Unmarked(Traded(due, i, j))) == multiset(Unmarked(due))
  {
    var u := Unmarked(due);
    assert Unmarked(Traded(due, i, j)) == u[i := u[j]][j := u[i]];
    TradeKeepsItems(u, i, j);
  }

  /** The pass with its due items in another order. */
  function Reordered(p: Pass, due: seq<DueReminder>): Pass { p.(plan := p.plan.(due := due)) }

  lemma NotPlanning(p: Pass)
    requires IsPass(p) && p.plan.due != []
    ensures Planning(p)
  {
  }

  lemma ReorderedIsPass(p: Pass, due: seq<DueReminder>)
    requires IsPass(p) && Planning(p) && Sorting.SortedBy(due, DueBefore) && Collapsed(due)
    requires multiset(Unmarked(due)) == multiset(Unmarked(p.plan.due))
    ensures IsPass(Reordered(p, due))
  {
    var scan := AllDue(p.snapshot.events, p.config, PruneFiredKeys(p.firedBefore, p.now), p.now);
    SameKeys(due, scan);
    SameKeys(p.plan.due, scan);
  }

  lemma SameDue(p: Pass, due: seq<DueReminder>)
    requires IsPass(p) && IsPass(Reordered(p, due))
    ensures multiset(Unmarked(due)) == multiset(Unmarked(p.plan.due))
  {
  }

  lemma LeadsUnmarked(due: seq<DueReminder>, other: seq<DueReminder>, i: nat)
    requires i < |due| && Leads(due, due[i]) && multiset(Unmarked(due)) == multiset(Unmarked(other))
    ensures Leads(Unmarked(other), Unmarked(due)[i])
  {
    var item := Unmarked(due)[i];
    assert item in multiset(Unmarked(due));
    assert item in Unmarked(other);
    forall x | x in Unmarked(other) && Group(x) == Group(item) ensures item.leadSeconds <= x.leadSeconds {
      assert x in multiset(Unmarked(other));
      assert x in Unmarked(due);
      var k :| 0 <= k < |due| && Unmarked(due)[k] == x;
      assert due[k] in due;
    }
  }

  lemma TradeKeepsRanks(due: seq<DueReminder>, i: nat, from: nat)
    requires i < |due| && from < |due|
    requires Group(due[i]) == Group(due[from]) && due[i].leadSeconds == due[from].leadSeconds
    ensures SameRanks(due, Traded(due, i, from))
  {
  }

  /** Where a leader stands, and where the reminder of its group that notifies does. */
  lemma LeaderPlaces(due: seq<DueReminder>, item: DueReminder) returns (i: nat, from: nat)
    requires Sorting.SortedBy(due, DueBefore) && Collapsed(due) && Leads(Unmarked(due), item)
    ensures i < |due| && from < |due| && due[i].notify && Unmarked(due)[from] == item
    ensures Group(due[i]) == Group(item) && due[i].leadSeconds == item.leadSeconds
  {
    from :| 0 <= from < |due| && Unmarked(due)[from] == item;
    i := OneNotificationPerGroup(due, from);
    assert Unmarked(due)[i] in Unmarked(due);
  }

  /** A leader can be brought to the place of its group that notifies. */
  lemma BringForward(due: seq<DueReminder>, item: DueReminder) returns (other: seq<DueReminder>, i: nat, from: nat)
    requires Sorting.SortedBy(due, DueBefore) && Collapsed(due) && Leads(Unmarked(due), item)
    ensures i < |due| && from < |due| && other == Traded(due, i, from) && SameRanks(due, other)
    ensures Group(due[i]) == Group(item) == Group(due[from]) && Notifies(other, i, item.key)
  {
    i, from := LeaderPlaces(due, item);
    other := Traded(due, i, from);
    TradeKeepsRanks(due, i, from);
  }

  lemma LeadsStill(due: seq<DueReminder>, other: seq<DueReminder>, item: DueReminder)
    requires Leads(Unmarked(due), item) && multiset(Unmarked(due)) == multiset(Unmarked(other))
    ensures Leads(Unmarked(other), item)
  {
    assert item in multiset(Unmarked(due));
    forall x | x in Unmarked(other) && Group(x) == Group(item) ensures item.leadSeconds <= x.leadSeconds {
      assert x in multiset(Unmarked(other));
    }
  }

  lemma SomeOrderNotifiesTwice(due: seq<DueReminder>, key: string, a: DueReminder, b: DueReminder)
    returns (other: seq<DueReminder>)
    requires Sorting.SortedBy(due, DueBefore) && Collapsed(due) && TwoTitles(Unmarked(due), key, a, b)
    ensures Sorting.SortedBy(other, DueBefore) && Collapsed(other)
    ensures multiset(Unmarked(other)) == multiset(Unmarked(due)) && NotifiesTwice(other, key)
  {
    var first, i, from := BringForward(due, a);
    RanksKeepOrder(due, first);
    TradeKeepsUnmarked(due, i, from);
    LeadsStill(due, first, b);
    var j, back;
    other, j, back := BringForward(first, b);
    RanksKeepOrder(first, other);
    TradeKeepsUnmarked(first, j, back);
    assert SameRank(due[i], first[i]);
    assert i != j && i != back && other[i] == first[i];
    assert Notifies(other, i, key) && Notifies(other, j, key);
  }

  /** Exactly when a key may notify twice in a pass: equal leads in a group leave the order of their reminders
      to the sort, and some order notifies the key twice if and only if two due leaders of groups share it
      under different titles. */
  lemma NotifiesTwiceIff(p: Pass, key: string)
    requires IsPass(p)
    ensures (exists due :: IsPass(Reordered(p, due)) && NotifiesTwice(due, key))
       <==> exists a, b :: TwoTitles(Unmarked(p.plan.due), key, a, b)
  {
    if due :| IsPass(Reordered(p, due)) && NotifiesTwice(due, key) {
      TwiceHasTwoTitles(p, due, key);
    }
    if a, b :| TwoTitles(Unmarked(p.plan.due), key, a, b) {
      PlanIsOrdered(p);
      NotPlanning(p);
      var due := SomeOrderNotifiesTwice(p.plan.due, key, a, b);
      ReorderedIsPass(p, due);
    }
  }

  lemma TwiceHasTwoTitles(p: Pass, due: seq<DueReminder>, key: string)
    requires IsPass(p) && IsPass(Reordered(p, due)) && NotifiesTwice(due, key)
    ensures exists a, b :: TwoTitles(Unmarked(p.plan.due), key, a, b)
  {
    var i, j :| i != j && Notifies(due, i, key) && Notifies(due, j, key);
    TwiceOnlyWithTwoTitles(Reordered(p, due), i, j, key);
    SameDue(p, due);
    LeadsUnmarked(due, p.plan.due, i);
    LeadsUnmarked(due, p.plan.due, j);
    assert TwoTitles(Unmarked(p.plan.due), key, Unmarked(due)[i], Unmarked(due)[j]);
  }

  // ---- passes that exist ----

  function PassWith(now: int, snapshot: CalendarSnapshot, config: RemindersConfig, zone: Zone, shown: Option<int>,
                    fired: set<string>, due: seq<DueReminder>): Pass
  {
    var digest := DigestOf(snapshot.events, config, zone, shown, now);
    var kept := PruneFiredKeys(fired, now);
    var wake := DigestWake(config, zone, now, NextPending(snapshot.events, config, kept, now));
    Pass(now, snapshot, config, zone, shown, fired, ReminderPlan(due, digest, digest != [], wake), kept + KeysOf(due))
  }

  lemma PassWithIsPass(now: int, snapshot: CalendarSnapshot, config: RemindersConfig, zone: Zone, shown: Option<int>,
                       fired: set<string>, due: seq<DueReminder>)
    requires ValidSnapshot(snapshot) && ValidConfig(config) && snapshot.valid && config.enabled
    requires Sorting.SortedBy(due, DueBefore) && Collapsed(due)
    requires multiset(Unmarked(due)) == multiset(AllDue(snapshot.events, config, PruneFiredKeys(fired, now), now))
    ensures IsPass(PassWith(now, snapshot, config, zone, shown, fired, due))
  {
  }

  lemma OneDue(event: CalendarEvent, config: RemindersConfig, fired: set<string>, now: int, item: DueReminder)
    requires Offers(event, config) == [item] && IsDue(item, fired, now)
    ensures DueOfEvent(event, config, fired, now) == [item]
  {
    assert DueAmong([item], 1, fired, now) == DueAmong([item], 0, fired, now) + [item];
  }

  lemma OnlyEventDue(event: CalendarEvent, config: RemindersConfig, fired: set<string>, now: int, item: DueReminder)
    requires Offers(event, config) == [item] && IsDue(item, fired, now)
    ensures AllDue([event], config, fired, now) == [item]
  {
    OneDue(event, config, fired, now, item);
    assert DueScan([event], 0, 1, config, fired, now) == DueScan([event], 0, 0, config, fired, now) + [item];
  }

  lemma BothEventsDue(e: CalendarEvent, f: CalendarEvent, config: RemindersConfig, fired: set<string>, now: int,
                      a: DueReminder, b: DueReminder)
    requires Offers(e, config) == [a] && IsDue(a, fired, now) && Offers(f, config) == [b] && IsDue(b, fired, now)
    ensures AllDue([e, f], config, fired, now) == [a, b]
  {
    OneDue(e, config, fired, now, a);
    OneDue(f, config, fired, now, b);
    assert DueScan([e, f], 0, 1, config, fired, now) == DueScan([e, f], 0, 0, config, fired, now) + [a];
    assert DueScan([e, f], 0, 2, config, fired, now) == DueScan([e, f], 0, 1, config, fired, now) + [b];
  }

  // ---- a pass in which one key notifies twice ----

  lemma TwoAreOrdered(a: DueReminder, b: DueReminder)
    requires a.notify && b.notify && a.event.start == b.event.start && TextBefore(a.event.title, b.event.title)
    ensures Sorting.SortedBy([a, b], DueBefore) && Collapsed([a, b]) && Unmarked([a, b]) == [a, b]
  {
    TextOrder(a.event.title, b.event.title);
  }

  /** Any two timed events that share identity and start but not the title, with one reminder of the same
      lead each, are in some pass announced separately under one key. */
  lemma TwoTitlesPass(e: CalendarEvent, f: CalendarEvent, config: RemindersConfig, zone: Zone) returns (p: Pass)
    requires ValidConfig(config) && config.enabled && ValidLeads(e) && ValidLeads(f)
    requires EventId(e) == EventId(f) && e.start == f.start && TextBefore(e.title, f.title)
    requires |Offers(e, config)| == 1 == |Offers(f, config)| && Offers(e, config)[0].key == Offers(f, config)[0].key
    ensures IsPass(p) && p.snapshot.events == [e, f] && p.firedBefore == {}
    ensures NotifiedKeys(p.plan.due) == [Offers(e, config)[0].key, Offers(e, config)[0].key]
  {
    var a, b := Offers(e, config)[0], Offers(f, config)[0];
    OfferShape(e, config, a);
    OfferShape(f, config, b);
    SameKeySameLead(e, f, a, b);
    TwoAreOrdered(a, b);
    BothEventsDue(e, f, config, {}, a.due, a, b);
    assert PruneFiredKeys({}, a.due) == {};
    PassWithIsPass(a.due, CalendarSnapshot(true, [e, f]), config, zone, None, {}, [a, b]);
    p := PassWith(a.due, CalendarSnapshot(true, [e, f]), config, zone, None, {}, [a, b]);
    BothNotify(a, b);
  }

  function LeadKey(item: DueReminder): int {
    if item.fromDefaultLead then DEFAULT_LEAD_SENTINEL else item.leadSeconds
  }

  lemma SameKeySameLead(e: CalendarEvent, f: CalendarEvent, a: DueReminder, b: DueReminder)
    requires a == Offer(e, a.leadSeconds, a.fromDefaultLead) && b == Offer(f, b.leadSeconds, b.fromDefaultLead)
    requires EventId(e) == EventId(f) && e.start == f.start && a.key == b.key
    ensures LeadKey(a) == LeadKey(b)
  {
    KeyInjective(EventId(e), e.start, LeadKey(a), EventId(f), f.start, LeadKey(b));
  }

  lemma BothNotify(a: DueReminder, b: DueReminder)
    requires a.notify && b.notify
    ensures NotifiedKeys([a, b]) == [a.key, b.key]
  {
    assert [a, b][..1] == [a] && [a][..0] == [];
    assert NotifiedKeys([a]) == [a.key];
  }

  // ---- a run that hits the boundary instant ----

  lemma AloneNotifies(item: DueReminder)
    requires item.notify
    ensures Sorting.SortedBy([item], DueBefore) && Collapsed([item]) && Unmarked([item]) == [item]
    ensures NotifiedKeys([item]) == [item.key] && KeysOf([item]) == {item.key}
  {
    assert [item][..0] == [];
    assert item in [item];
  }

  /** A pass over one event with one reminder. */
  function Lone(now: int, event: CalendarEvent, config: RemindersConfig, zone: Zone, shown: Option<int>,
                fired: set<string>,
                item: DueReminder): Pass
  {
    PassWith(now, CalendarSnapshot(true, [event]), config, zone, shown, fired, [item])
  }

  lemma LoneIsPass(now: int, event: CalendarEvent, config: RemindersConfig, zone: Zone, shown: Option<int>,
                   fired: set<string>,
                   item: DueReminder)
    requires ValidConfig(config) && config.enabled && ValidLeads(event) && Offers(event, config) == [item]
    requires item.notify
    requires IsDue(item, PruneFiredKeys(fired, now), now)
    ensures IsPass(Lone(now, event, config, zone, shown, fired, item))
  {
    AloneNotifies(item);
    OnlyEventDue(event, config, PruneFiredKeys(fired, now), now, item);
    PassWithIsPass(now, CalendarSnapshot(true, [event]), config, zone, shown, fired, [item]);
  }

  lemma LoneParts(now: int, event: CalendarEvent, config: RemindersConfig, zone: Zone, shown: Option<int>,
                  fired: set<string>,
                  item: DueReminder)
    requires PruneFiredKeys(fired, now) == {} && item.notify
    ensures var p := Lone(now, event, config, zone, shown, fired, item);
      && p.now == now && p.firedBefore == fired && p.lastDigestDate == shown
      && p.firedAfter == {item.key} && NotifiedKeys(p.plan.due) == [item.key]
  {
    AloneNotifies(item);
  }

  /** At the end of the grace the key has just been pruned. */
  lemma PrunedAtGraceEnd(event: CalendarEvent, item: DueReminder)
    requires item == Offer(event, item.leadSeconds, item.fromDefaultLead)
    ensures PruneFiredKeys({item.key}, StartTick(event) + LATE_GRACE) == {}
  {
    ReminderKeyStartOf(event, LeadKey(item));
    PruneKeepsUntilGrace({item.key}, StartTick(event) + LATE_GRACE, item.key, event);
  }

  lemma IsPassAt(run: seq<Pass>, i: nat)
    requires i < |run| && IsPass(run[i])
    ensures PassAt(run, i)
  {
  }

  lemma TwoAreChained(run: seq<Pass>)
    requires |run| == 2 && run[0].now <= run[1].now
    requires run[1].firedBefore == run[0].firedAfter && run[1].lastDigestDate == DigestDateAfter(run[0])
    ensures InOrder(run, 0, 1) && Follows(run, 1) && DigestCarries(run, 1)
  {
  }

  lemma TwoPassesAreRun(run: seq<Pass>)
    requires |run| == 2 && forall i :: 0 <= i < |run| ==> PassAt(run, i)
    requires InOrder(run, 0, 1) && Follows(run, 1) && DigestCarries(run, 1)
    ensures IsRun(run)
  {
  }

  lemma LogOfTwo(p: Pass, q: Pass)
    ensures NotificationLog([p, q], 2) == NotifiedKeys(p.plan.due) + NotifiedKeys(q.plan.due)
  {
    assert NotificationLog([p, q], 1) == NotifiedKeys(p.plan.due);
  }

  /** The boundary instant is a real exception: every event whose only reminder is at its start is announced
      twice by a pass at its start and one five minutes later, to the tick. */
  lemma BoundaryInstantRepeats(event: CalendarEvent, config: RemindersConfig, zone: Zone, shown: Option<int>)
    returns (run: seq<Pass>)
    requires ValidConfig(config) && config.enabled && ValidLeads(event)
    requires |Offers(event, config)| == 1 && Offers(event, config)[0].leadSeconds == 0
    ensures IsRun(run) && |run| == 2 && run[0].now == StartTick(event) && run[1].now == StartTick(event) + LATE_GRACE
    ensures NotificationLog(run, 2) == [Offers(event, config)[0].key, Offers(event, config)[0].key]
    ensures !Distinct(NotificationLog(run, 2))
  {
    var item, start, end := Offers(event, config)[0], StartTick(event), StartTick(event) + LATE_GRACE;
    OfferShape(event, config, item);
    PrunedAtGraceEnd(event, item);
    assert PruneFiredKeys({}, start) == {};
    var first := Lone(start, event, config, zone, shown, {}, item);
    var second := Lone(end, event, config, zone, DigestDateAfter(first), {item.key}, item);
    LoneParts(start, event, config, zone, shown, {}, item);
    LoneParts(end, event, config, zone, DigestDateAfter(first), {item.key}, item);
    run := [first, second];
    LogOfTwo(first, second);
    LoneRun(event, config, zone, shown, item);
    assert NotificationLog(run, 2)[0] == NotificationLog(run, 2)[1];
  }

  lemma LoneRun(event: CalendarEvent, config: RemindersConfig, zone: Zone, shown: Option<int>, item: DueReminder)
    requires ValidConfig(config) && config.enabled && ValidLeads(event) && Offers(event, config) == [item]
    requires item == Offer(event, 0, item.fromDefaultLead)
    ensures var first := Lone(StartTick(event), event, config, zone, shown, {}, item);
      IsRun([first, Lone(StartTick(event) + LATE_GRACE, event, config, zone, DigestDateAfter(first), {item.key}, item)])
  {
    var start, end := StartTick(event), StartTick(event) + LATE_GRACE;
    PrunedAtGraceEnd(event, item);
    assert PruneFiredKeys({}, start) == {};
    var first := Lone(start, event, config, zone, shown, {}, item);
    var second := Lone(end, event, config, zone, DigestDateAfter(first), {item.key}, item);
    LoneParts(start, event, config, zone, shown, {}, item);
    LoneParts(end, event, config, zone, DigestDateAfter(first), {item.key}, item);
    LoneIsPass(start, event, config, zone, shown, {}, item);
    LoneIsPass(end, event, config, zone, DigestDateAfter(first), {item.key}, item);
    IsPassAt([first, second], 0);
    IsPassAt([first, second], 1);
    TwoAreChained([first, second]);
    TwoPassesAreRun([first, second]);
  }
}
