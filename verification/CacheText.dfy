/** src/calendar/calendar_service.cpp: what saveCache writes and what parseCache makes of it. */
module CacheText {
  import opened Wrappers
  import opened CalendarTypes
  import opened ReminderLeads
  import opened EventLink
  import P = RefreshProtocol

  /** One object of the "events" array, with the defaults of the keys it lacks. */
  datatype Item = Item(account: string, event: CalendarEvent)

  /** The events of one account among the first `n` items. */
  function EventsOf(items: seq<Item>, id: string, n: nat): seq<CalendarEvent>
    requires n <= |items|
  {
    if n == 0 then [] else EventsOf(items, id, n - 1) + if items[n - 1].account == id then [items[n - 1].event] else []
  }

  function Saved(events: P.EventMap, id: string): seq<CalendarEvent> {
    if id in events then events[id] else []
  }

  predicate HoldsOf(items: seq<Item>, events: P.EventMap, id: string) {
    EventsOf(items, id, |items|) == Saved(events, id)
  }

  /** The items are every account's events, in each account's order. */
  ghost predicate Dumps(events: P.EventMap, items: seq<Item>) {
    forall id :: HoldsOf(items, events, id)
  }

  ghost predicate AllReadBack(saved: seq<CalendarEvent>, loaded: seq<CalendarEvent>) {
    |saved| == |loaded| && forall i :: 0 <= i < |saved| ==> ReadBack(saved[i], loaded[i])
  }

  ghost predicate ParsedOf(items: seq<Item>, events: P.EventMap, id: string) {
    && (id in events <==> EventsOf(items, id, |items|) != [])
    && AllReadBack(EventsOf(items, id, |items|), Saved(events, id))
  }

  /** Each account that has an item gets its events, read back in order. */
  ghost predicate Parses(items: seq<Item>, events: P.EventMap) {
    forall id :: ParsedOf(items, events, id)
  }

  // ---- what saving and loading keeps ----

  predicate AllStable(events: seq<CalendarEvent>) {
    forall i :: 0 <= i < |events| ==> Stable(events[i])
  }

  predicate StableMap(events: P.EventMap) {
    forall id :: id in events ==> AllStable(events[id])
  }

  /** The accounts that have events at all. */
  function Persisted(events: P.EventMap): P.EventMap {
    map id | id in events && events[id] != [] :: events[id]
  }

  lemma ListSurvivesIff(saved: seq<CalendarEvent>, loaded: seq<CalendarEvent>)
    requires AllReadBack(saved, loaded)
    ensures loaded == saved <==> AllStable(saved)
  {
    forall i | 0 <= i < |saved| ensures loaded[i] == saved[i] <==> Stable(saved[i]) {
      EventSurvivesIff(saved[i], loaded[i]);
    }
  }

  lemma AccountSurvivesIff(events: P.EventMap, items: seq<Item>, cached: P.EventMap, id: string)
    requires HoldsOf(items, events, id) && ParsedOf(items, cached, id) && id in events
    ensures id in cached <==> id in Persisted(events)
    ensures id in cached ==> (cached[id] == events[id] <==> AllStable(events[id]))
  {
    ListSurvivesIff(events[id], Saved(cached, id));
  }

  /** What is saved comes back, accounts without events apart, exactly if all its events are stable. */
  lemma SavedMapSurvivesIff(events: P.EventMap, items: seq<Item>, cached: P.EventMap)
    requires Dumps(events, items) && Parses(items, cached)
    ensures cached == Persisted(events) <==> StableMap(events)
  {
    forall id ensures id in cached <==> id in Persisted(events) {
      assert HoldsOf(items, events, id) && ParsedOf(items, cached, id);
      if id in events {
        AccountSurvivesIff(events, items, cached, id);
      }
    }
    forall id | id in events
      ensures AllStable(events[id]) <==> id !in Persisted(events) || cached[id] == Persisted(events)[id]
    {
      assert HoldsOf(items, events, id) && ParsedOf(items, cached, id);
      AccountSurvivesIff(events, items, cached, id);
    }
    if cached == Persisted(events) {
      assert StableMap(events);
    }
  }

  /** Whatever a cache text holds, what is loaded from it is stable. */
  lemma LoadedMapIsStable(items: seq<Item>, cached: P.EventMap)
    requires Parses(items, cached)
    ensures StableMap(cached)
  {
    forall id | id in cached ensures AllStable(cached[id]) {
      assert ParsedOf(items, cached, id);
      var saved := EventsOf(items, id, |items|);
      forall i | 0 <= i < |saved| ensures Stable(cached[id][i]) {
        LoadedIsStable(saved[i], cached[id][i]);
      }
    }
  }

  lemma ReadBackIsUnique(saved: CalendarEvent, a: CalendarEvent, b: CalendarEvent)
    requires ReadBack(saved, a) && ReadBack(saved, b)
    ensures a == b
  {
    if saved.reminderLeads.Some? {
      SmallestLeadsAreUnique(saved.reminderLeads.value, a.reminderLeads.value, b.reminderLeads.value);
    }
  }

  /** A text has one reading. */
  lemma ParseIsUnique(items: seq<Item>, a: P.EventMap, b: P.EventMap)
    requires Parses(items, a) && Parses(items, b)
    ensures a == b
  {
    forall id ensures (id in a <==> id in b) && (id in a ==> a[id] == b[id]) {
      assert ParsedOf(items, a, id) && ParsedOf(items, b, id);
      var saved := EventsOf(items, id, |items|);
      forall i | 0 <= i < |saved| ensures Saved(a, id)[i] == Saved(b, id)[i] {
        ReadBackIsUnique(saved[i], Saved(a, id)[i], Saved(b, id)[i]);
      }
    }
  }

  // ---- the loops ----

  lemma {:induction false} EventsOfPrefix(items: seq<Item>, more: seq<Item>, id: string, n: nat)
    requires n <= |items|
    ensures EventsOf(items + more, id, n) == EventsOf(items, id, n)
  {
    if n > 0 {
      EventsOfPrefix(items, more, id, n - 1);
    }
  }

  lemma EventsAfter(items: seq<Item>, item: Item, id: string)
    ensures EventsOf(items + [item], id, |items| + 1) ==
            EventsOf(items, id, |items|) + if item.account == id then [item.event] else []
  {
    EventsOfPrefix(items, [item], id, |items|);
  }

  /** `more` is `items` followed by events of one account. */
  predicate Appended(items: seq<Item>, id: string, events: seq<CalendarEvent>, more: seq<Item>, other: string) {
    EventsOf(more, other, |more|) == EventsOf(items, other, |items|) + if other == id then events else []
  }

  lemma AppendedOneMore(items: seq<Item>, id: string, events: seq<CalendarEvent>, more: seq<Item>, event: CalendarEvent,
                        other: string)
    requires Appended(items, id, events, more, other)
    ensures Appended(items, id, events + [event], more + [Item(id, event)], other)
  {
    EventsAfter(more, Item(id, event), other);
  }

  /** One account's events are appended to the array. */
  method AppendEvents(items: seq<Item>, id: string, events: seq<CalendarEvent>) returns (more: seq<Item>)
    ensures forall other :: Appended(items, id, events, more, other)
  {
    more := items;
    for i := 0 to |events|
      invariant forall other :: Appended(items, id, events[..i], more, other)
    {
      ghost var before, done := more, events[..i + 1];
      assert done == events[..i] + [events[i]];
      more := more + [Item(id, events[i])];
      forall other ensures Appended(items, id, done, more, other) {
        AppendedOneMore(items, id, events[..i], before, events[i], other);
      }
    }
    assert events[..|events|] == events;
  }

  predicate DumpedBut(events: P.EventMap, ids: set<string>, items: seq<Item>, id: string) {
    EventsOf(items, id, |items|) == if id in ids then [] else Saved(events, id)
  }

  method DumpEvents(events: P.EventMap) returns (items: seq<Item>)
    ensures Dumps(events, items)
  {
    items := [];
    var ids := events.Keys;
    while ids != {}
      invariant ids <= events.Keys
      invariant forall id :: DumpedBut(events, ids, items, id)
      decreases |ids|
    {
      ghost var before := items;
      ghost var member := AnyOf(ids);
      var id :| id in ids;
      items := AppendEvents(items, id, events[id]);
      var rest := ids - {id};
      forall other ensures DumpedBut(events, rest, items, other) {
        assert DumpedBut(events, ids, before, other) && Appended(before, id, events[id], items, other);
      }
      ids := rest;
    }
    forall id ensures HoldsOf(items, events, id) {
      assert DumpedBut(events, ids, items, id);
    }
  }

  method ReadEvent(saved: CalendarEvent) returns (loaded: CalendarEvent)
    ensures ReadBack(saved, loaded)
  {
    var url := ResolveEventLink(saved.location, "", saved.url);
    var webUrl := ResolveEventLink("", "", saved.webUrl);
    var leads: Option<seq<int>> := None;
    if saved.reminderLeads.Some? {
      var normalized := NormalizeReminderLeads(saved.reminderLeads.value);
      leads := Some(normalized);
    }
    loaded := saved.(url := url, webUrl := webUrl, reminderLeads := leads);
  }

  ghost predicate ParsedUpTo(items: seq<Item>, events: P.EventMap, id: string, n: nat)
    requires n <= |items|
  {
    && (id in events <==> EventsOf(items, id, n) != [])
    && AllReadBack(EventsOf(items, id, n), Saved(events, id))
  }

  function Pushed(events: P.EventMap, account: string, event: CalendarEvent): P.EventMap {
    events[account := Saved(events, account) + [event]]
  }

  lemma ReadBackOneMore(saved: seq<CalendarEvent>, loaded: seq<CalendarEvent>, event: CalendarEvent,
                        read: CalendarEvent)
    requires AllReadBack(saved, loaded) && ReadBack(event, read)
    ensures AllReadBack(saved + [event], loaded + [read])
  {
  }

  lemma OwnEventMore(items: seq<Item>, n: nat, id: string)
    requires n < |items|
    ensures EventsOf(items, id, n + 1) ==
            EventsOf(items, id, n) + if items[n].account == id then [items[n].event] else []
  {
  }

  lemma PushedOne(events: P.EventMap, account: string, event: CalendarEvent, id: string)
    ensures Saved(Pushed(events, account, event), id) == Saved(events, id) + if account == id then [event] else []
    ensures id in Pushed(events, account, event) <==> id in events || id == account
  {
  }

  lemma ParsedOneMore(items: seq<Item>, events: P.EventMap, n: nat, next: nat, event: CalendarEvent, id: string)
    requires n < |items| && next == n + 1 && ReadBack(items[n].event, event) && ParsedUpTo(items, events, id, n)
    ensures ParsedUpTo(items, Pushed(events, items[n].account, event), id, next)
  {
    OwnEventMore(items, n, id);
    PushedOne(events, items[n].account, event, id);
    if items[n].account == id {
      ReadBackOneMore(EventsOf(items, id, n), Saved(events, id), items[n].event, event);
    }
  }

  method ParseItems(items: seq<Item>) returns (events: P.EventMap)
    ensures Parses(items, events)
  {
    events := map[];
    for n := 0 to |items|
      invariant forall id :: ParsedUpTo(items, events, id, n)
    {
      var account, next := items[n].account, n + 1;
      var event := ReadEvent(items[n].event);
      ghost var before := events;
      events := events[account := (if account in events then events[account] else []) + [event]];
      forall id ensures ParsedUpTo(items, events, id, next) {
        ParsedOneMore(items, before, n, next, event, id);
      }
    }
    forall id ensures ParsedOf(items, events, id) {
      assert ParsedUpTo(items, events, id, |items|);
    }
  }
}
