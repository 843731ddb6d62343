/** src/calendar/calendar_reminder_monitor.cpp: what a restart from the persisted keys does to a run. */
module ReminderRestarts {
  import opened Wrappers
  import opened CalendarTypes
  import opened ReminderKeys
  import opened ReminderPlanner
  import opened ReminderRuns
  import opened ReminderRepeats
  import opened PersistedKeys

  /** What the monitor has on record after a restart from these saved keys. */
  function Restarted(keys: seq<string>, restart: int): set<string> {
    PruneFiredKeys(LoadedKeys(JoinLines(keys, |keys|)), restart)
  }

  lemma AllAreLoaded(keys: seq<string>, fired: set<string>)
    requires Soonest(keys, fired) && |fired| <= MAX_PERSISTED_FIRED_KEYS && forall key :: key in fired ==> OneLine(key)
    ensures LoadedKeys(JoinLines(keys, |keys|)) == fired
  {
    AllAreSaved(keys, fired);
    assert forall i :: 0 <= i < |keys| ==> keys[i] in SetOf(keys);
    PersistRoundTrip(keys);
  }

  /** Restarting from the text a pass has saved carries the run on: with nothing fired since, the pass
      after the restart follows those before it, so whatever holds of every run holds across restarts. */
  lemma RestartFollows(run: seq<Pass>, i: nat, saved: nat, keys: seq<string>, restart: int)
    requires saved < i < |run| && (forall k :: saved < k < i ==> FiredNothing(run[k]))
    requires run[i - 1].now <= restart <= run[i].now && Soonest(keys, run[saved].firedAfter)
    requires |run[saved].firedAfter| <= MAX_PERSISTED_FIRED_KEYS
    requires forall key :: key in run[saved].firedAfter ==> OneLine(key)
    requires run[i].firedBefore == Restarted(keys, restart)
    ensures Follows(run, i)
  {
    AllAreLoaded(keys, run[saved].firedAfter);
    assert Resumed(run, i, saved, restart);
  }

  // ---- keys with a line break ----

  lemma OfferKeyIsOneLineIff(event: CalendarEvent, item: DueReminder)
    requires item == Offer(event, item.leadSeconds, item.fromDefaultLead)
    ensures OneLine(item.key) <==> '\n' !in EventId(event)
  {
    KeyIsOneLineIff(EventId(event), event.start, LeadKey(item));
  }

  lemma OfferKeyFor(event: CalendarEvent, item: DueReminder)
    requires item == Offer(event, item.leadSeconds, item.fromDefaultLead)
    ensures KeyFor(item.key, event)
  {
    ReminderKeyStartOf(event, LeadKey(item));
  }

  /** A fired reminder is planned again after a restart, within its grace, exactly if the event's identity
      holds a line break. */
  lemma RepeatsAfterRestartIff(event: CalendarEvent, item: DueReminder, keys: seq<string>, restart: int, t: int)
    requires item == Offer(event, item.leadSeconds, item.fromDefaultLead) && item.key in keys
    requires restart <= t < StartTick(event) + LATE_GRACE && IsDue(item, {}, t)
    ensures IsDue(item, PruneFiredKeys(Restarted(keys, restart), t), t) <==> '\n' in EventId(event)
  {
    var loaded := LoadedKeys(JoinLines(keys, |keys|));
    RestartKeepsIff(keys, item.key);
    OfferKeyIsOneLineIff(event, item);
    OfferKeyFor(event, item);
    RestartIsInvisible(loaded, restart, t);
    if item.key in loaded {
      PruneKeepsUntilGrace(loaded, t, item.key, event);
    }
  }

  lemma OneKeySaved(key: string)
    ensures Soonest([key], {key})
  {
  }

  lemma FirstPass(event: CalendarEvent, config: RemindersConfig, zone: Zone, shown: Option<int>, item: DueReminder)
    returns (p: Pass)
    requires ValidConfig(config) && config.enabled && ValidLeads(event) && Offers(event, config) == [item]
    ensures IsPass(p) && p.now == item.due && p.firedAfter == {item.key} && NotifiedKeys(p.plan.due) == [item.key]
  {
    OfferShape(event, config, item);
    p := Lone(item.due, event, config, zone, shown, {}, item);
    assert PruneFiredKeys({}, item.due) == {};
    LoneParts(item.due, event, config, zone, shown, {}, item);
    LoneIsPass(item.due, event, config, zone, shown, {}, item);
  }

  lemma SecondPass(event: CalendarEvent, config: RemindersConfig, zone: Zone, shown: Option<int>, fired: set<string>,
                   t: int, item: DueReminder)
    returns (q: Pass)
    requires ValidConfig(config) && config.enabled && ValidLeads(event) && Offers(event, config) == [item]
    requires IsDue(item, PruneFiredKeys(fired, t), t)
    ensures IsPass(q) && q.now == t && q.firedBefore == fired && q.lastDigestDate == shown
    ensures NotifiedKeys(q.plan.due) == [item.key]
  {
    OfferShape(event, config, item);
    q := Lone(t, event, config, zone, shown, fired, item);
    LoneIsPass(t, event, config, zone, shown, fired, item);
    AloneNotifies(item);
  }

  /** Two passes around a restart notify such a reminder twice, at any instant within its grace. */
  lemma LineBreakRepeats(event: CalendarEvent, config: RemindersConfig, zone: Zone, shown: Option<int>, restart: int,
                         t: int, item: DueReminder)
    returns (p: Pass, q: Pass)
    requires ValidConfig(config) && config.enabled && ValidLeads(event) && Offers(event, config) == [item]
    requires '\n' in EventId(event) && IsDue(item, {}, t) && item.due <= restart <= t < StartTick(event) + LATE_GRACE
    ensures IsPass(p) && IsPass(q) && p.now <= restart <= q.now == t && !AtBoundary(item, t)
    ensures Soonest([item.key], p.firedAfter) && q.firedBefore == Restarted([item.key], restart)
    ensures q.lastDigestDate == DigestDateAfter(p)
    ensures NotifiedKeys(p.plan.due) == NotifiedKeys(q.plan.due) == [item.key]
  {
    OfferShape(event, config, item);
    p := FirstPass(event, config, zone, shown, item);
    OneKeySaved(item.key);
    RepeatsAfterRestartIff(event, item, [item.key], restart, t);
    q := SecondPass(event, config, zone, DigestDateAfter(p), Restarted([item.key], restart), t, item);
  }
}
