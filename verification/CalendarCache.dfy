/** src/calendar/calendar_service.cpp, src/app/application_services.cpp: refreshes, the cache each of them
    is saved to, key changes that load it, and restarts, as one state machine. */
module CalendarCache {
  import opened Wrappers
  import opened CalendarTypes
  import opened EventLink
  import opened CacheText
  import opened RefreshResults
  import P = RefreshProtocol
  import C = CachePersistence
  import S = CalendarService

  datatype State = State(calendar: P.State, cache: C.State)

  /** `items` and `text` are what is saved if the step ends a refresh, `cached` what a text that is loaded holds. */
  datatype Action =
    | Refresh(action: P.Action, text: string, items: seq<Item>, written: bool)
    | KeyChanged(provider: C.KeyState, derived: Option<nat>, io: C.LoadIo, cached: P.EventMap)
    | Recover(removed: bool)
    | Restart(enabled: bool, config: seq<P.Account>, settings: string)

  /** accountDone saves the events when it ends a refresh. */
  ghost predicate Saves(s: State, text: string, items: seq<Item>, written: bool, t: State) {
    if t.calendar.completed == s.calendar.completed then t.cache == s.cache
    else
      Dumps(t.calendar.eventsByAccount, items) && t.cache == C.Step(s.cache, C.SaveEvents(text, items, written))
  }

  /** What parseCache does with a text that has been loaded, whatever is running. */
  ghost predicate Installs(s: State, cached: P.EventMap, t: State) {
    if t.cache.memory.Some? && t.cache.memory.value.items.Some? then
      Parses(t.cache.memory.value.items.value, cached) && P.Step(s.calendar, P.CacheLoad(cached), t.calendar)
    else
      t.calendar == s.calendar
  }

  function Booted(enabled: bool, config: seq<P.Account>, settings: string, encrypted: C.EncryptedFile,
                  plaintext: C.PlainFile): State
  {
    State(P.INITIAL.(enabled := enabled, config := config, settings := settings),
          C.State(None, false, C.Opening, false, encrypted, plaintext, None))
  }

  ghost predicate Step(s: State, action: Action, t: State) {
    match action
    case Refresh(action, text, items, written) =>
      !action.CacheLoad? && P.Step(s.calendar, action, t.calendar) && Saves(s, text, items, written, t)
    case KeyChanged(provider, derived, io, cached) =>
      t.cache == C.Step(s.cache, C.SyncPersistence(provider, derived, io)) && Installs(s, cached, t)
    case Recover(removed) => t == s.(cache := C.Step(s.cache, C.ClearForRecovery(removed)))
    case Restart(enabled, config, settings) =>
      t == Booted(enabled, config, settings, s.cache.encrypted, s.cache.plaintext)
  }

  /** What the accounts answer has come through a client. */
  ghost predicate FromClients(action: Action) {
    action.Refresh? && action.action.Deliver? ==>
      forall i :: 0 <= i < |action.action.reply.events| ==> FromClient(action.action.reply.events[i])
  }

  ghost predicate Boots(s: State) {
    s == Booted(s.calendar.enabled, s.calendar.config, s.calendar.settings, s.cache.encrypted, s.cache.plaintext)
  }

  ghost predicate StepAt(states: seq<State>, actions: seq<Action>, i: nat)
    requires i < |actions| && |states| == |actions| + 1
  {
    FromClients(actions[i]) && Step(states[i], actions[i], states[i + 1])
  }

  /** Any service, over any two files. */
  ghost predicate IsRun(states: seq<State>, actions: seq<Action>) {
    && |states| == |actions| + 1 && Boots(states[0])
    && forall i :: 0 <= i < |actions| ==> StepAt(states, actions, i)
  }

  // ---- the invariant ----

  /** All events the service holds would come back from the cache unchanged. */
  predicate StableCalendar(s: P.State) {
    StableMap(s.eventsByAccount) && forall k :: 0 <= k < |s.contexts| ==> AllStable(s.contexts[k].events)
  }

  ghost predicate Inv(s: State) {
    P.Inv(s.calendar) && Ledger(s.calendar) && StableCalendar(s.calendar) && C.Inv(s.cache)
  }

  lemma ReportKeepsStable(s: P.State, slot: nat, report: P.Report)
    requires slot < |s.roster| == |s.reports| && StableCalendar(s) && AllStable(report.events)
    ensures StableCalendar(P.AccountDone(s, slot, report))
  {
    assert StableMap(P.Told(s, slot, report).eventsByAccount);
  }

  lemma JoinKeepsStable(context: P.FetchContext, reply: P.Reply)
    requires AllStable(context.events) && AllStable(reply.events)
    ensures AllStable(P.JoinCollection(context, reply).events)
  {
  }

  lemma ReactionIsStable(s: P.State, callback: P.Callback, reply: P.Reply)
    requires P.Inv(s) && callback in s.outstanding && StableCalendar(s) && AllStable(reply.events)
    ensures var reaction := P.React(s.roster, s.contexts, callback, reply);
      && (reaction.Join? ==> AllStable(reaction.context.events))
      && (reaction.Done? ==> AllStable(reaction.report.events))
  {
    if callback.Collection? {
      JoinKeepsStable(s.contexts[callback.ctx], reply);
    }
  }

  lemma AppliedIsStable(s: P.State, callback: P.Callback, reaction: P.Reaction)
    requires P.Fits(s, reaction) && StableCalendar(s)
    requires reaction.Join? ==> AllStable(reaction.context.events)
    requires reaction.Done? ==> AllStable(reaction.report.events)
    ensures StableCalendar(P.Applied(s, callback, reaction))
  {
    var taken := s.(outstanding := P.OutstandingAfter(s.outstanding, |s.contexts|, callback, reaction));
    if reaction.Done? {
      ReportKeepsStable(taken, reaction.slot, reaction.report);
    } else if reaction.Join? {
      var context := reaction.context;
      var joined := taken.(contexts := s.contexts[reaction.ctx := context]);
      assert StableCalendar(joined);
      ReportKeepsStable(joined, context.slot, P.Report(context.anyOk, context.events));
    }
  }

  lemma DeliveryKeepsStable(s: P.State, callback: P.Callback, reply: P.Reply, t: P.State)
    requires P.Inv(s) && P.Step(s, P.Deliver(callback, reply), t) && StableCalendar(s) && AllStable(reply.events)
    ensures StableCalendar(t)
  {
    P.ReactionShape(s.roster, s.contexts, callback, reply);
    ReactionIsStable(s, callback, reply);
    AppliedIsStable(s, callback, P.React(s.roster, s.contexts, callback, reply));
  }

  lemma LoadKeepsStable(s: P.State, cached: P.EventMap, t: P.State)
    requires P.Step(s, P.CacheLoad(cached), t) && StableCalendar(s) && StableMap(cached)
    ensures StableCalendar(t)
  {
  }

  lemma RefreshKeepsStable(s: P.State, action: P.Action, t: P.State)
    requires P.Inv(s) && P.Step(s, action, t) && StableCalendar(s) && !action.CacheLoad?
    requires action.Deliver? ==> AllStable(action.reply.events)
    ensures StableCalendar(t)
  {
    if action.Deliver? {
      DeliveryKeepsStable(s, action.callback, action.reply, t);
    }
  }

  lemma ClientsAnswerStable(events: seq<CalendarEvent>)
    requires forall i :: 0 <= i < |events| ==> FromClient(events[i])
    ensures AllStable(events)
  {
    forall i | 0 <= i < |events| ensures Stable(events[i]) {
      ClientEventsAreStable(events[i]);
    }
  }

  lemma RefreshStepKeepsInv(s: State, action: Action, t: State)
    requires Inv(s) && FromClients(action) && action.Refresh? && Step(s, action, t)
    ensures Inv(t) && (s.calendar.refreshing && !t.calendar.refreshing ==> Concluded(t.calendar))
  {
    P.StepKeepsInv(s.calendar, action.action, t.calendar);
    StepKeepsLedger(s.calendar, action.action, t.calendar);
    if action.action.Deliver? {
      ClientsAnswerStable(action.action.reply.events);
    }
    RefreshKeepsStable(s.calendar, action.action, t.calendar);
    C.StepKeepsInv(s.cache, C.SaveEvents(action.text, action.items, action.written));
  }

  lemma KeyChangeKeepsInv(s: State, action: Action, t: State)
    requires Inv(s) && action.KeyChanged? && Step(s, action, t)
    ensures Inv(t) && t.calendar.refreshing == s.calendar.refreshing
  {
    C.StepKeepsInv(s.cache, C.SyncPersistence(action.provider, action.derived, action.io));
    if t.cache.memory.Some? && t.cache.memory.value.items.Some? {
      LoadedMapIsStable(t.cache.memory.value.items.value, action.cached);
      P.StepKeepsInv(s.calendar, P.CacheLoad(action.cached), t.calendar);
      StepKeepsLedger(s.calendar, P.CacheLoad(action.cached), t.calendar);
      LoadKeepsStable(s.calendar, action.cached, t.calendar);
    }
  }

  lemma BootedInv(enabled: bool, config: seq<P.Account>, settings: string, encrypted: C.EncryptedFile,
                  plaintext: C.PlainFile)
    ensures Inv(Booted(enabled, config, settings, encrypted, plaintext))
  {
  }

  lemma StepKeepsInv(s: State, action: Action, t: State)
    requires Inv(s) && FromClients(action) && Step(s, action, t)
    ensures Inv(t)
  {
    match action
    case Refresh(_, _, _, _) => RefreshStepKeepsInv(s, action, t);
    case KeyChanged(_, _, _, _) => KeyChangeKeepsInv(s, action, t);
    case Recover(removed) => C.StepKeepsInv(s.cache, C.ClearForRecovery(removed));
    case Restart(enabled, config, settings) =>
      BootedInv(enabled, config, settings, s.cache.encrypted, s.cache.plaintext);
  }

  /** Every reachable state, restarts included. */
  lemma {:induction false} RunKeepsInv(states: seq<State>, actions: seq<Action>, i: nat)
    requires IsRun(states, actions) && i < |states|
    ensures Inv(states[i])
  {
    if i == 0 {
      var s := states[0];
      BootedInv(s.calendar.enabled, s.calendar.config, s.calendar.settings, s.cache.encrypted, s.cache.plaintext);
    } else {
      RunKeepsInv(states, actions, i - 1);
      assert StepAt(states, actions, i - 1);
      StepKeepsInv(states[i - 1], actions[i - 1], states[i]);
    }
  }

  // ---- a refresh is saved, and comes back ----

  predicate EndsRefresh(s: State, action: Action, t: State) {
    action.Refresh? && s.calendar.refreshing && !t.calendar.refreshing
  }

  /** Whatever happens meanwhile, key changes included, a refresh that ends has concluded, and a file that
      may be written then holds exactly its events. */
  lemma EndedRefreshIsSaved(states: seq<State>, actions: seq<Action>, i: nat)
    requires IsRun(states, actions) && i < |actions| && EndsRefresh(states[i], actions[i], states[i + 1])
    ensures Concluded(states[i + 1].calendar)
    ensures Dumps(states[i + 1].calendar.eventsByAccount, actions[i].items)
    ensures states[i].cache.writable && actions[i].written ==>
              && states[i].cache.key.Some?
              && states[i + 1].cache.encrypted ==
                 C.Sealed(states[i].cache.key.value, C.Payload(actions[i].text, Some(actions[i].items)))
  {
    RunKeepsInv(states, actions, i);
    assert StepAt(states, actions, i);
    RefreshStepKeepsInv(states[i], actions[i], states[i + 1]);
    P.EndIsDelivery(states[i].calendar, actions[i].action, states[i + 1].calendar);
  }

  /** The steps that may change an encrypted file: a recovery, or a refresh that ends and is written. */
  predicate Overwrites(s: State, action: Action, t: State) {
    action.Recover?
    || (action.Refresh? && t.calendar.completed != s.calendar.completed && s.cache.writable && action.written)
  }

  lemma FileStays(s: State, action: Action, t: State)
    requires Inv(s) && Step(s, action, t) && s.cache.encrypted != C.NoFile && !Overwrites(s, action, t)
    ensures t.cache.encrypted == s.cache.encrypted
  {
    if action.KeyChanged? {
      var sync := C.SyncPersistence(action.provider, action.derived, action.io);
      if C.Step(s.cache, sync).encrypted != s.cache.encrypted {
        C.EncryptedFileIsReplacedSafely(s.cache, sync);
      }
    }
  }

  ghost predicate Undisturbed(states: seq<State>, actions: seq<Action>, j: nat)
    requires |states| == |actions| + 1 && j < |actions|
  {
    !Overwrites(states[j], actions[j], states[j + 1])
  }

  lemma {:induction false} FileLasts(states: seq<State>, actions: seq<Action>, a: nat, b: nat)
    requires IsRun(states, actions) && a <= b < |states| && states[a].cache.encrypted != C.NoFile
    requires forall j :: a <= j < b ==> Undisturbed(states, actions, j)
    ensures states[b].cache.encrypted == states[a].cache.encrypted
  {
    if a < b {
      FileLasts(states, actions, a, b - 1);
      RunKeepsInv(states, actions, b - 1);
      assert StepAt(states, actions, b - 1);
      assert Undisturbed(states, actions, b - 1);
      FileStays(states[b - 1], actions[b - 1], states[b]);
    }
  }

  lemma OpenFileIsLoadedIff(s: C.State, key: nat, dump: C.Payload, io: C.LoadIo)
    requires s.encrypted == C.Sealed(key, dump) && dump.items.Some? && io.secured && io.readable
    ensures var t := C.Sync(s, C.KeyReady, Some(key), io);
      && t.encrypted == s.encrypted
      && if C.Oversized(dump) then t.memory.None? && t.persistence == C.RecoveryRequired else t.memory == Some(dump)
  {
  }

  /** Between the end of a refresh that was written and step `b` nothing has changed the file. */
  ghost predicate KeptUntil(states: seq<State>, actions: seq<Action>, a: nat, b: nat)
    requires |states| == |actions| + 1
  {
    && a < b < |actions|
    && EndsRefresh(states[a], actions[a], states[a + 1]) && states[a].cache.writable && actions[a].written
    && forall j :: a + 1 <= j < b ==> Undisturbed(states, actions, j)
  }

  /** Step `b` loads with the key the refresh that ended at step `a` was saved with. */
  predicate LoadsAgain(states: seq<State>, actions: seq<Action>, a: nat, b: nat)
    requires |states| == |actions| + 1 && a < |actions| && b < |actions|
  {
    && actions[b].KeyChanged? && actions[b].provider == C.KeyReady && actions[b].derived == states[a].cache.key
    && actions[b].io.secured && actions[b].io.readable
  }

  predicate TooLong(action: Action)
    requires action.Refresh?
  {
    |action.text| > C.MAX_CACHE_BYTES
  }

  /** What the file holds when step `b` loads it. */
  lemma FileAtLoad(states: seq<State>, actions: seq<Action>, a: nat, b: nat)
    requires IsRun(states, actions) && KeptUntil(states, actions, a, b)
    ensures states[a].cache.key.Some? && actions[a].Refresh?
    ensures Dumps(states[a + 1].calendar.eventsByAccount, actions[a].items)
    ensures states[b].cache.encrypted ==
            C.Sealed(states[a].cache.key.value, C.Payload(actions[a].text, Some(actions[a].items)))
    ensures StableMap(states[a + 1].calendar.eventsByAccount)
  {
    EndedRefreshIsSaved(states, actions, a);
    FileLasts(states, actions, a + 1, b);
    RunKeepsInv(states, actions, a + 1);
  }

  lemma NoLoadIsNoStep(s: P.State, cached: P.EventMap)
    ensures !P.Step(s, P.CacheLoad(cached), s)
  {
    assert |s.writes + [P.Loaded(P.DropUnconfigured(cached, s.config))]| != |s.writes|;
  }

  /** The saved events come back at the first load with the key of a refresh that was written, however many
      restarts, refreshes that were not written, other keys and failed loads lie between, exactly if the
      saved text is not longer than a load reads; otherwise nothing is loaded and recovery is required. */
  lemma SavedEventsComeBackIff(states: seq<State>, actions: seq<Action>, a: nat, b: nat)
    requires IsRun(states, actions) && KeptUntil(states, actions, a, b) && LoadsAgain(states, actions, a, b)
    ensures var saved := Persisted(states[a + 1].calendar.eventsByAccount);
      && (P.Step(states[b].calendar, P.CacheLoad(saved), states[b + 1].calendar) <==> !TooLong(actions[a]))
      && (TooLong(actions[a]) ==> states[b + 1].calendar == states[b].calendar
                                  && states[b + 1].cache.persistence == C.RecoveryRequired)
  {
    var saved := Persisted(states[a + 1].calendar.eventsByAccount);
    FileAtLoad(states, actions, a, b);
    OpenFileIsLoadedIff(states[b].cache, states[a].cache.key.value, C.Payload(actions[a].text, Some(actions[a].items)),
                        actions[b].io);
    assert StepAt(states, actions, b);
    if TooLong(actions[a]) {
      NoLoadIsNoStep(states[b].calendar, saved);
    } else {
      SavedMapSurvivesIff(states[a + 1].calendar.eventsByAccount, actions[a].items, actions[b].cached);
    }
  }

  /** A text that is too long is never loaded once the shell has been restarted, with any key, and no later
      refresh replaces it, until the user asks for recovery. */
  lemma {:induction false} LongTextLocksOut(states: seq<State>, actions: seq<Action>, from: nat, i: nat)
    requires IsRun(states, actions) && from <= i < |states| && C.Initial(states[from].cache)
    requires states[from].cache.encrypted.Sealed? && C.Oversized(states[from].cache.encrypted.payload)
    requires forall j :: from <= j < i ==> !actions[j].Recover?
    ensures states[i].cache.encrypted == states[from].cache.encrypted
    ensures !states[i].cache.writable && states[i].cache.memory.None?
    ensures from < i && actions[i - 1].KeyChanged? ==> states[i].calendar == states[i - 1].calendar
  {
    if from < i {
      LongTextLocksOut(states, actions, from, i - 1);
      RunKeepsInv(states, actions, i - 1);
      assert StepAt(states, actions, i - 1);
      LockedOutStep(states[i - 1], actions[i - 1], states[i]);
    }
  }

  lemma LockedOutStep(s: State, action: Action, t: State)
    requires C.Inv(s.cache) && Step(s, action, t) && !action.Recover?
    requires !s.cache.writable && s.cache.memory.None?
    requires s.cache.encrypted.Sealed? && C.Oversized(s.cache.encrypted.payload)
    ensures t.cache.encrypted == s.cache.encrypted && !t.cache.writable && t.cache.memory.None?
    ensures action.KeyChanged? ==> t.calendar == s.calendar
  {
    if action.KeyChanged? {
      C.UnreadableStays(s.cache, C.SyncPersistence(action.provider, action.derived, action.io));
    }
  }

  lemma PersistedWithout(events: P.EventMap, id: string)
    requires id in events
    ensures Persisted(events - {id}) == Persisted(events) - {id}
  {
  }

  lemma {:induction false} PersistedMerge(events: P.EventMap)
    ensures P.MergedEvents(Persisted(events)) == P.MergedEvents(events)
    decreases |events|
  {
    if events != map[] {
      ghost var id := AnyOf(events.Keys);
      P.MergedSplit(events, id);
      PersistedMerge(events - {id});
      PersistedWithout(events, id);
      if id in Persisted(events) {
        P.MergedSplit(Persisted(events), id);
      } else {
        assert Persisted(events) - {id} == Persisted(events);
      }
    }
  }

  lemma AllConfigured(events: P.EventMap, config: seq<P.Account>)
    requires forall id :: id in events ==> P.Configured(config, id)
    ensures P.DropUnconfigured(Persisted(events), config) == Persisted(events)
  {
  }

  /** With the same accounts configured, such a load shows the very events the refresh had shown, if any. */
  lemma SameEventsAreShown(states: seq<State>, actions: seq<Action>, a: nat, b: nat)
    requires IsRun(states, actions) && KeptUntil(states, actions, a, b) && LoadsAgain(states, actions, a, b)
    requires states[b].calendar.config == states[a + 1].calendar.config
    ensures var before, after := states[a + 1].calendar, states[b + 1].calendar;
      && (TooLong(actions[a]) ==> after == states[b].calendar)
      && (!TooLong(actions[a]) ==> after.eventsByAccount == Persisted(before.eventsByAccount))
      && (!TooLong(actions[a]) && before.snapshot.events != [] ==>
            after.snapshot.valid && SortedByStart(after.snapshot.events)
            && multiset(after.snapshot.events) == multiset(before.snapshot.events))
  {
    SavedEventsComeBackIff(states, actions, a, b);
    EndedRefreshIsSaved(states, actions, a);
    var before := states[a + 1].calendar;
    PersistedMerge(before.eventsByAccount);
    AllConfigured(before.eventsByAccount, before.config);
    if !TooLong(actions[a]) && before.snapshot.events != [] {
      assert before.snapshot.events[0] in multiset(before.snapshot.events);
      assert Persisted(before.eventsByAccount) != map[];
    }
  }

  // ---- a run ----

  lemma ExtendRun(states: seq<State>, actions: seq<Action>, action: Action, t: State)
    returns (longer: seq<State>, taken: seq<Action>)
    requires IsRun(states, actions) && FromClients(action) && Step(states[|actions|], action, t)
    ensures longer == states + [t] && taken == actions + [action] && IsRun(longer, taken)
  {
    longer, taken := states + [t], actions + [action];
    forall i | 0 <= i < |taken| ensures StepAt(longer, taken, i) {
      if i < |actions| {
        assert StepAt(states, actions, i);
      }
    }
  }

  const ONE := [P.Account("a", P.Vdir)]

  function Unsaved(action: P.Action): Action { Refresh(action, "", [], true) }

  /** The key becomes ready and there is nothing to load. */
  lemma OpenEmpty(key: nat) returns (states: seq<State>, actions: seq<Action>)
    ensures IsRun(states, actions) && |actions| == 1
    ensures states[1].calendar == P.INITIAL.(config := ONE)
    ensures states[1].cache == C.State(Some(key), true, C.Ready, false, C.NoFile, C.NoPlain, None)
  {
    var s := Booted(true, ONE, "", C.NoFile, C.NoPlain);
    var action := KeyChanged(C.KeyReady, Some(key), C.SMOOTH, map[]);
    var t := State(s.calendar, C.Step(s.cache, C.SyncPersistence(C.KeyReady, Some(key), C.SMOOTH)));
    states, actions := [s, t], [action];
  }

  lemma StartOne(s: P.State) returns (t: P.State)
    requires s == P.INITIAL.(config := ONE)
    ensures P.Step(s, P.Tick(true), t) && t == P.Enrolled(s, multiset{P.Begin(0)})
  {
    assert P.Begins(1) == multiset{P.Begin(0)};
    t := P.StartRefresh(s);
  }

  lemma BeginOne(s: P.State) returns (t: P.State)
    requires s.roster == ONE && |s.reports| == 1 && s.outstanding == multiset{P.Begin(0)}
    ensures P.Step(s, P.Deliver(P.Begin(0), Answer(true, [])), t)
    ensures t == s.(outstanding := multiset{P.VdirResult(0)})
  {
    AwaitStep(s, P.Begin(0), Answer(true, []), P.VdirResult(0));
    t := s.(outstanding := s.outstanding - multiset{P.Begin(0)} + multiset{P.VdirResult(0)});
    assert t.outstanding == multiset{P.VdirResult(0)};
  }

  lemma OnlyEvent(event: CalendarEvent, config: seq<P.Account>)
    requires config == ONE
    ensures P.DropUnconfigured(map["a" := [event]], config) == map["a" := [event]]
    ensures P.Rebuilt(map["a" := [event]], CalendarSnapshot(true, [event]))
  {
    assert config[0].id == "a";
    P.MergedSplit(map["a" := [event]], "a");
    assert map["a" := [event]] - {"a"} == map[];
  }

  lemma EndOne(s: P.State, event: CalendarEvent) returns (t: P.State)
    requires s.roster == s.config == ONE && s.outstanding == multiset{P.VdirResult(0)} && s.pendingAccounts == 1
    requires |s.reports| == 1 && s.eventsByAccount == map[]
    ensures P.Step(s, P.Deliver(P.VdirResult(0), Answer(true, [event])), t)
    ensures t.eventsByAccount == map["a" := [event]] && !t.refreshing && t.completed == s.completed + 1
    ensures t.config == ONE
  {
    var report := P.Report(true, [event]);
    OnlyEvent(event, s.config);
    var snapshot := CalendarSnapshot(true, [event]);
    assert P.Told(s, 0, report).eventsByAccount == map["a" := [event]];
    LastReportStep(s, P.VdirResult(0), Answer(true, [event]), 0, report, snapshot);
    t := Ending(s, P.VdirResult(0), 0, report, snapshot);
  }

  lemma OneItem(event: CalendarEvent)
    ensures Dumps(map["a" := [event]], [Item("a", event)])
    ensures Stable(event) ==> Parses([Item("a", event)], map["a" := [event]])
  {
    var items, events := [Item("a", event)], map["a" := [event]];
    forall id ensures HoldsOf(items, events, id) && (Stable(event) ==> ParsedOf(items, events, id)) {
      assert EventsOf(items, id, 1) == EventsOf(items, id, 0) + if "a" == id then [event] else [];
      if Stable(event) {
        StableReadsBack(event);
      }
    }
  }

  lemma StableReadsBack(event: CalendarEvent)
    requires Stable(event)
    ensures ReadBack(event, event)
  {
  }

  lemma FetchOne(key: nat) returns (states: seq<State>, actions: seq<Action>)
    ensures IsRun(states, actions) && |actions| == 3
    ensures var s := states[3].calendar;
      && s.roster == s.config == ONE && s.outstanding == multiset{P.VdirResult(0)} && s.pendingAccounts == 1
      && |s.reports| == 1 && s.eventsByAccount == map[] && s.refreshing
    ensures states[3].cache == C.State(Some(key), true, C.Ready, false, C.NoFile, C.NoPlain, None)
  {
    states, actions := OpenEmpty(key);
    var cache := states[1].cache;
    var started := StartOne(states[1].calendar);
    var begun := BeginOne(started);
    states, actions := ExtendRun(states, actions, Unsaved(P.Tick(true)), State(started, cache));
    states, actions := ExtendRun(states, actions, Unsaved(P.Deliver(P.Begin(0), Answer(true, []))),
                                 State(begun, cache));
  }

  lemma SaveOne(key: nat, event: CalendarEvent, text: string) returns (states: seq<State>, actions: seq<Action>)
    requires FromClient(event)
    ensures IsRun(states, actions) && |actions| == 4
    ensures EndsRefresh(states[3], actions[3], states[4]) && states[3].cache.writable && actions[3].written
    ensures actions[3].text == text
    ensures states[3].cache.key == Some(key) && states[4].calendar.eventsByAccount == map["a" := [event]]
    ensures states[4].cache.encrypted == C.Sealed(key, C.Payload(text, Some([Item("a", event)])))
    ensures states[4].cache.plaintext == C.NoPlain
  {
    states, actions := FetchOne(key);
    var ended := EndOne(states[3].calendar, event);
    var items := [Item("a", event)];
    OneItem(event);
    states, actions := ExtendRun(states, actions,
                                 Refresh(P.Deliver(P.VdirResult(0), Answer(true, [event])), text, items, true),
                                 State(ended, C.Step(states[3].cache, C.SaveEvents(text, items, true))));
  }

  lemma LoadOne(s: State, key: nat, event: CalendarEvent, text: string) returns (t: State)
    requires s == Booted(true, ONE, "", C.Sealed(key, C.Payload(text, Some([Item("a", event)]))), C.NoPlain)
    requires Stable(event)
    ensures Step(s, KeyChanged(C.KeyReady, Some(key), C.SMOOTH, map["a" := [event]]), t)
    ensures if |text| <= C.MAX_CACHE_BYTES then t.calendar.snapshot == CalendarSnapshot(true, [event])
            else t.calendar == s.calendar && t.cache.persistence == C.RecoveryRequired
  {
    OneItem(event);
    OnlyEvent(event, ONE);
    OpenFileIsLoadedIff(s.cache, key, C.Payload(text, Some([Item("a", event)])), C.SMOOTH);
    var cached: P.EventMap := map["a" := [event]];
    var shown := P.Installed(s.calendar, cached).(snapshot := CalendarSnapshot(true, [event]));
    t := State(if |text| <= C.MAX_CACHE_BYTES then shown else s.calendar,
               C.Step(s.cache, C.SyncPersistence(C.KeyReady, Some(key), C.SMOOTH)));
  }

  lemma RestartOne(key: nat, event: CalendarEvent, text: string) returns (states: seq<State>, actions: seq<Action>)
    requires FromClient(event)
    ensures IsRun(states, actions) && |actions| == 5 && actions[4] == Restart(true, ONE, "")
    ensures EndsRefresh(states[3], actions[3], states[4]) && states[3].cache.writable && actions[3].written
    ensures states[3].cache.key == Some(key) && Undisturbed(states, actions, 4) && actions[3].text == text
    ensures states[5] == Booted(true, ONE, "", C.Sealed(key, C.Payload(text, Some([Item("a", event)]))), C.NoPlain)
  {
    states, actions := SaveOne(key, event, text);
    var booted := Booted(true, ONE, "", states[4].cache.encrypted, states[4].cache.plaintext);
    states, actions := ExtendRun(states, actions, Restart(true, ONE, ""), booted);
  }

  /** Any event a client produces, fetched and saved under any key, is shown again after a restart, or lost to
      a recovery if the text that holds it is too long. */
  lemma RestartShowsEventIff(key: nat, event: CalendarEvent, text: string)
    returns (states: seq<State>, actions: seq<Action>)
    requires FromClient(event)
    ensures IsRun(states, actions) && |actions| == 6 && actions[4] == Restart(true, ONE, "")
    ensures KeptUntil(states, actions, 3, 5) && LoadsAgain(states, actions, 3, 5) && actions[3].text == text
    ensures states[6].calendar.snapshot == CalendarSnapshot(true, [event]) <==> |text| <= C.MAX_CACHE_BYTES
    ensures |text| > C.MAX_CACHE_BYTES ==>
              !states[6].calendar.snapshot.valid && states[6].cache.persistence == C.RecoveryRequired
  {
    var before, taken := RestartOne(key, event, text);
    ClientEventsAreStable(event);
    var shown := LoadOne(before[5], key, event, text);
    states, actions := ExtendRun(before, taken,
                                 KeyChanged(C.KeyReady, Some(key), C.SMOOTH, map["a" := [event]]), shown);
    assert Undisturbed(before, taken, 4) ==> Undisturbed(states, actions, 4);
  }

  // ---- the service's members ----

  class Calendar {
    const service: S.CalendarService
    const store: C.CacheStore

    ghost function View(): State
      reads service, store
    {
      State(service.View(), store.View())
    }

    constructor (encrypted: C.EncryptedFile, plaintext: C.PlainFile)
      ensures Boots(View()) && fresh(service) && fresh(store)
      ensures store.encrypted == encrypted && store.plaintext == plaintext
    {
      service := new S.CalendarService();
      store := new C.CacheStore(encrypted, plaintext);
    }

    /** A callback answers; if that ends the refresh, the events are dumped and saved. `json` renders them. */
    method Deliver(callback: P.Callback, reply: P.Reply, json: seq<Item> -> string, written: bool)
      returns (text: string, items: seq<Item>)
      requires P.Inv(service.View()) && callback in service.outstanding
      modifies service, store
      ensures Step(old(View()), Refresh(P.Deliver(callback, reply), text, items, written), View())
    {
      text, items := "", [];
      P.StillRefreshing(service.View(), callback);
      ghost var before := service.View();
      service.Deliver(callback, reply);
      P.StepKeepsInv(before, P.Deliver(callback, reply), service.View());
      if !service.refreshing {
        items := DumpEvents(service.eventsByAccount);
        text := json(items);
        store.SaveCache(text, items, written);
      }
      DeliveryOutcome(before, callback, reply, service.View());
    }

    method SyncCachePersistence(provider: C.KeyState, derived: Option<nat>, io: C.LoadIo) returns (cached: P.EventMap)
      modifies service, store
      ensures Step(old(View()), KeyChanged(provider, derived, io, cached), View())
    {
      cached := map[];
      store.SyncCachePersistence(provider, derived, io);
      if store.memory.Some? && store.memory.value.items.Some? {
        cached := ParseItems(store.memory.value.items.value);
        service.InstallCache(cached);
      }
    }
  }

  lemma DeliveryOutcome(s: P.State, callback: P.Callback, reply: P.Reply, t: P.State)
    requires P.Inv(s) && P.Inv(t) && s.refreshing && P.Step(s, P.Deliver(callback, reply), t)
    ensures t.completed == s.completed <==> t.refreshing
  {
    P.DeliveredParts(s, callback, reply);
  }
}
