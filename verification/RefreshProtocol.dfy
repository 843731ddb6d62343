/** src/calendar/calendar_service.cpp: the asynchronous refresh, as a state machine over its callbacks.

    Whatever an operation is still waiting for is one element of `outstanding`. A step delivers any of
    them, in any order; a callback the source runs synchronously is one delivered before the next
    account begins, so `Begin` elements stand for the accounts the start loop has not reached. */
module RefreshProtocol {
  import opened CalendarTypes

  datatype AccountKind =
    | CalDav(configured: bool)
    | Google
    | Ics(hasUrl: bool)
    | Vdir
    | Unknown

  datatype Account = Account(id: string, kind: AccountKind)

  datatype Callback =
    | Begin(slot: nat)
    | Password(slot: nat)
    | Discovery(slot: nat)
    | Collection(ctx: nat)
    | TokenLookup(slot: nat)
    | TokenRefresh(slot: nat)
    | TokenStore(slot: nat)
    | GoogleFetch(slot: nat, allowRefreshRetry: bool)
    | IcsResponse(slot: nat)
    | VdirResult(slot: nat)

  /** What an operation answers. For `Begin`, `ok` is "a valid session" or "the worker took the request". */
  datatype Reply = Reply(ok: bool, unauthorized: bool, selected: nat, events: seq<CalendarEvent>)

  datatype Report = Report(ok: bool, events: seq<CalendarEvent>)

  const FAILED := Report(false, [])

  /** The counter the collections of one CalDAV account share. */
  datatype FetchContext = FetchContext(slot: nat, pending: nat, anyOk: bool, events: seq<CalendarEvent>)

  type EventMap = map<string, seq<CalendarEvent>>

  /** What has changed the events of accounts: a successful report, a cache load that left these events,
      or the wipe of a disabling. */
  datatype Write =
    | Reported(slot: nat, events: seq<CalendarEvent>)
    | Loaded(kept: EventMap)
    | Wiped

  /** The service's fields, `settings` being the rest of its configuration, the callbacks in flight, and
      history: the reports of each account in the current refresh, the events known when it started, what
      has changed them since, and how many refreshes were started and completed. */
  datatype State = State(
    enabled: bool,
    config: seq<Account>,
    settings: string,
    roster: seq<Account>,
    refreshing: bool,
    pendingAccounts: nat,
    eventsByAccount: EventMap,
    snapshot: CalendarSnapshot,
    outstanding: multiset<Callback>,
    contexts: seq<FetchContext>,
    reports: seq<seq<Report>>,
    base: EventMap,
    writes: seq<Write>,
    started: nat,
    completed: nat)

  // ---- the handlers ----

  /** What a handler does: waits for another callback, fans out, joins a context, or reports. */
  datatype Reaction =
    | Next(callback: Callback)
    | FanOut(slot: nat, count: nat)
    | Join(ctx: nat, context: FetchContext)
    | Done(slot: nat, report: Report)

  /** startRefresh's branch for one account. */
  function BeginAccount(kind: AccountKind, slot: nat, ok: bool): Reaction {
    match kind
    case CalDav(configured) => if configured then Next(Password(slot)) else Done(slot, FAILED)
    case Google => if ok then Next(GoogleFetch(slot, true)) else Next(TokenLookup(slot))
    case Ics(hasUrl) => if hasUrl then Next(IcsResponse(slot)) else Done(slot, FAILED)
    case Vdir => if ok then Next(VdirResult(slot)) else Done(slot, FAILED)
    case Unknown => Done(slot, FAILED)
  }

  function JoinCollection(context: FetchContext, reply: Reply): FetchContext {
    context.(anyOk := context.anyOk || reply.ok,
             events := if reply.ok then context.events + reply.events else context.events,
             pending := if context.pending > 0 then context.pending - 1 else 0)
  }

  function React(roster: seq<Account>, contexts: seq<FetchContext>, callback: Callback, reply: Reply): Reaction
    requires Addressed(|roster|, contexts, callback)
  {
    match callback
    case Begin(slot) => BeginAccount(roster[slot].kind, slot, reply.ok)
    case Password(slot) => if reply.ok then Next(Discovery(slot)) else Done(slot, FAILED)
    case Discovery(slot) => if reply.ok && reply.selected > 0 then FanOut(slot, reply.selected) else Done(slot, FAILED)
    case Collection(ctx) => Join(ctx, JoinCollection(contexts[ctx], reply))
    case TokenLookup(slot) => if reply.ok then Next(TokenRefresh(slot)) else Done(slot, FAILED)
    case TokenRefresh(slot) => if reply.ok then Next(TokenStore(slot)) else Done(slot, FAILED)
    case TokenStore(slot) => if reply.ok then Next(GoogleFetch(slot, false)) else Done(slot, FAILED)
    case GoogleFetch(slot, allowRefreshRetry) =>
      if reply.unauthorized && allowRefreshRetry then Next(TokenLookup(slot))
      else Done(slot, Report(reply.ok && !reply.unauthorized, reply.events))
    case IcsResponse(slot) => Done(slot, if reply.ok then Report(true, reply.events) else FAILED)
    case VdirResult(slot) => Done(slot, Report(reply.ok, reply.events))
  }

  predicate Addressed(accounts: nat, contexts: seq<FetchContext>, callback: Callback) {
    if callback.Collection? then callback.ctx < |contexts| && contexts[callback.ctx].slot < accounts
    else callback.slot < accounts
  }

  function Owner(contexts: seq<FetchContext>, callback: Callback): nat
    requires callback.Collection? ==> callback.ctx < |contexts|
  {
    if callback.Collection? then contexts[callback.ctx].slot else callback.slot
  }

  // ---- accountDone and rebuildSnapshot ----

  predicate Configured(config: seq<Account>, id: string) {
    exists i :: 0 <= i < |config| && config[i].id == id
  }

  function DropUnconfigured(events: EventMap, config: seq<Account>): EventMap {
    map id | id in events && Configured(config, id) :: events[id]
  }

  /** The first half of accountDone: keep the events of a success, count the account down. */
  function Told(s: State, slot: nat, report: Report): State
    requires slot < |s.roster| == |s.reports|
  {
    s.(eventsByAccount :=
         if report.ok then s.eventsByAccount[s.roster[slot].id := report.events] else s.eventsByAccount,
       pendingAccounts := if s.pendingAccounts > 0 then s.pendingAccounts - 1 else 0,
       reports := s.reports[slot := s.reports[slot] + [report]],
       writes := if report.ok then s.writes + [Reported(slot, report.events)] else s.writes)
  }

  /** accountDone, the snapshot apart. */
  function AccountDone(s: State, slot: nat, report: Report): State
    requires slot < |s.roster| == |s.reports|
  {
    var told := Told(s, slot, report);
    if told.pendingAccounts > 0 then told
    else
      told.(eventsByAccount := DropUnconfigured(told.eventsByAccount, s.config), refreshing := false,
            completed := s.completed + 1)
  }

  function OutstandingAfter(outstanding: multiset<Callback>, contexts: nat, callback: Callback, reaction: Reaction)
    : multiset<Callback>
  {
    var rest := outstanding - multiset{callback};
    match reaction
    case Next(next) => rest + multiset{next}
    case FanOut(_, count) => rest[Collection(contexts) := count]
    case Join(_, _) => rest
    case Done(_, _) => rest
  }

  predicate Fits(s: State, reaction: Reaction) {
    && |s.roster| == |s.reports|
    && (reaction.Join? ==> reaction.ctx < |s.contexts| && reaction.context.slot < |s.roster|)
    && (reaction.Done? ==> reaction.slot < |s.roster|)
  }

  function Applied(s: State, callback: Callback, reaction: Reaction): State
    requires Fits(s, reaction)
  {
    var taken := s.(outstanding := OutstandingAfter(s.outstanding, |s.contexts|, callback, reaction));
    match reaction
    case Next(next) => taken
    case FanOut(slot, count) => taken.(contexts := s.contexts + [FetchContext(slot, count, false, [])])
    case Join(ctx, context) =>
      var joined := taken.(contexts := s.contexts[ctx := context]);
      if context.pending > 0 then joined else AccountDone(joined, context.slot, Report(context.anyOk, context.events))
    case Done(slot, report) => AccountDone(taken, slot, report)
  }

  /** The state after a delivery, the snapshot apart. */
  function Delivered(s: State, callback: Callback, reply: Reply): State
    requires callback in s.outstanding && Addressed(|s.roster|, s.contexts, callback) && |s.roster| == |s.reports|
  {
    Applied(s, callback, React(s.roster, s.contexts, callback, reply))
  }

  /** Every event of every account, as often as it occurs. */
  ghost function MergedEvents(events: EventMap): multiset<CalendarEvent> {
    if events == map[] then multiset{}
    else
      var id :| id in events;
      multiset(events[id]) + MergedEvents(events - {id})
  }

  lemma {:induction false} MergedSplit(events: EventMap, id: string)
    requires id in events
    ensures MergedEvents(events) == multiset(events[id]) + MergedEvents(events - {id})
    decreases |events|
  {
    var first :| first in events && MergedEvents(events) == multiset(events[first]) + MergedEvents(events - {first});
    if first != id {
      MergedSplit(events - {first}, id);
      MergedSplit(events - {id}, first);
      assert events - {first} - {id} == events - {id} - {first};
    }
  }

  /** What rebuildSnapshot leaves: the accounts' events sorted by start, ties in any order. */
  ghost predicate Rebuilt(events: EventMap, snapshot: CalendarSnapshot) {
    snapshot.valid && SortedByStart(snapshot.events) && multiset(snapshot.events) == MergedEvents(events)
  }

  /** `after` is `core` with the snapshot rebuilt if the refresh that `before` was in has completed. */
  ghost predicate SnapshotFollows(before: State, core: State, after: State) {
    && after == core.(snapshot := after.snapshot)
    && (if core.completed == before.completed then after.snapshot == before.snapshot
        else Rebuilt(core.eventsByAccount, after.snapshot))
  }

  // ---- steps ----

  function Begins(n: nat): multiset<Callback> {
    if n == 0 then multiset{} else Begins(n - 1) + multiset{Begin(n - 1)}
  }

  function NoReports(n: nat): seq<seq<Report>> {
    seq(n, _ => [])
  }

  /** Every configured account enters the new refresh at once, before any of them begins. */
  function Enrolled(s: State, begins: multiset<Callback>): State {
    s.(refreshing := true, pendingAccounts := |s.config|, roster := s.config, outstanding := s.outstanding + begins,
       contexts := [], reports := NoReports(|s.config|), base := s.eventsByAccount, writes := [],
       started := s.started + 1)
  }

  function StartRefresh(s: State): State {
    if s.config == [] then s else Enrolled(s, Begins(|s.config|))
  }

  predicate SameConfig(s: State, enabled: bool, config: seq<Account>, settings: string) {
    enabled == s.enabled && config == s.config && settings == s.settings
  }

  /** Any change of the configuration while calendars are disabled throws away events and snapshot. */
  function Reload(s: State, enabled: bool, config: seq<Account>, settings: string): State {
    if SameConfig(s, enabled, config, settings) then s
    else if enabled then s.(enabled := true, config := config, settings := settings)
    else
      s.(enabled := false, config := config, settings := settings,
         eventsByAccount := map[], snapshot := CalendarSnapshot(false, []), writes := s.writes + [Wiped])
  }

  /** parseCache, the snapshot apart: the cached events replace all others, whatever is running. */
  function Installed(s: State, cached: EventMap): State {
    var kept := DropUnconfigured(cached, s.config);
    s.(eventsByAccount := kept, writes := s.writes + [Loaded(kept)])
  }

  /** The snapshot is rebuilt unless the cache was empty. */
  ghost predicate InstallFollows(s: State, cached: EventMap, t: State) {
    && t == Installed(s, cached).(snapshot := t.snapshot)
    && if cached == map[] then t.snapshot == s.snapshot else Rebuilt(t.eventsByAccount, t.snapshot)
  }

  datatype Action =
    | Tick(due: bool)
    | Deliver(callback: Callback, reply: Reply)
    | ConfigReload(enabled: bool, config: seq<Account>, settings: string)
    | CacheLoad(cached: EventMap)

  ghost predicate Step(s: State, action: Action, t: State) {
    match action
    case Tick(due) => t == if due && s.enabled && !s.refreshing then StartRefresh(s) else s
    case Deliver(callback, reply) =>
      && callback in s.outstanding && Addressed(|s.roster|, s.contexts, callback) && |s.roster| == |s.reports|
      && SnapshotFollows(s, Delivered(s, callback, reply), t)
    case ConfigReload(enabled, config, settings) => t == Reload(s, enabled, config, settings)
    case CacheLoad(cached) => InstallFollows(s, cached, t)
  }

  const INITIAL :=
    State(true, [], "", [], false, 0, map[], CalendarSnapshot(false, []), multiset{}, [], [], map[], [], 0, 0)

  // ---- the invariant ----

  function Unreported(reports: seq<seq<Report>>, n: nat): (count: nat)
    requires n <= |reports|
    ensures count <= n
  {
    if n == 0 then 0 else Unreported(reports, n - 1) + if reports[n - 1] == [] then 1 else 0
  }

  /** Each callback in flight belongs to an account that has not reported, and an account waits for one
      kind of callback at a time: one copy of it, or as many as its context still counts. */
  ghost predicate Accounted(outstanding: multiset<Callback>, contexts: seq<FetchContext>, reports: seq<seq<Report>>) {
    && (forall c :: c in outstanding ==> Addressed(|reports|, contexts, c) && reports[Owner(contexts, c)] == [])
    && (forall c, d :: c in outstanding && d in outstanding && Owner(contexts, c) == Owner(contexts, d) ==> c == d)
    && (forall c :: c in outstanding && !c.Collection? ==> outstanding[c] == 1)
    && (forall k :: 0 <= k < |contexts| ==> outstanding[Collection(k)] == contexts[k].pending)
  }

  predicate Waits(outstanding: multiset<Callback>, contexts: seq<FetchContext>, accounts: nat, a: nat, c: Callback) {
    c in outstanding && Addressed(accounts, contexts, c) && Owner(contexts, c) == a
  }

  /** Every account that has not reported still waits for something. */
  ghost predicate NoneForgotten(outstanding: multiset<Callback>, contexts: seq<FetchContext>,
                                reports: seq<seq<Report>>) {
    forall a :: 0 <= a < |reports| && reports[a] == [] ==> exists c :: Waits(outstanding, contexts, |reports|, a, c)
  }

  ghost predicate Inv(s: State) {
    && |s.roster| == |s.reports|
    && Accounted(s.outstanding, s.contexts, s.reports)
    && NoneForgotten(s.outstanding, s.contexts, s.reports)
    && (forall a :: 0 <= a < |s.reports| ==> |s.reports[a]| <= 1)
    && s.pendingAccounts == Unreported(s.reports, |s.reports|)
    && (s.refreshing <==> s.pendingAccounts > 0)
    && s.started == s.completed + (if s.refreshing then 1 else 0)
  }

  lemma {:induction false} NoneUnreported(reports: seq<seq<Report>>, n: nat)
    requires n <= |reports|
    ensures Unreported(reports, n) == 0 <==> forall a :: 0 <= a < n ==> reports[a] != []
  {
    if n > 0 {
      NoneUnreported(reports, n - 1);
    }
  }

  lemma {:induction false} ReportCounts(reports: seq<seq<Report>>, slot: nat, told: seq<Report>, n: nat)
    requires slot < |reports| && n <= |reports| && reports[slot] == [] && told != []
    ensures Unreported(reports[slot := told], n) == Unreported(reports, n) - (if slot < n then 1 else 0)
  {
    if n > 0 {
      ReportCounts(reports, slot, told, n - 1);
    }
  }

  lemma {:induction false} BeginsOncePerSlot(n: nat)
    ensures forall c :: c in Begins(n) <==> c.Begin? && c.slot < n
    ensures forall c :: c in Begins(n) ==> Begins(n)[c] == 1
  {
    if n > 0 {
      BeginsOncePerSlot(n - 1);
    }
  }

  lemma {:induction false} FreshReports(reports: seq<seq<Report>>, n: nat)
    requires n <= |reports| && forall a :: 0 <= a < n ==> reports[a] == []
    ensures Unreported(reports, n) == n
  {
    if n > 0 {
      FreshReports(reports, n - 1);
    }
  }

  lemma NothingOutstanding(s: State)
    requires Inv(s) && !s.refreshing
    ensures s.outstanding == multiset{}
  {
    NoneUnreported(s.reports, |s.reports|);
    forall c ensures c !in s.outstanding {
    }
  }

  lemma BeginsAccounted(reports: seq<seq<Report>>)
    requires forall a :: 0 <= a < |reports| ==> reports[a] == []
    ensures Accounted(Begins(|reports|), [], reports) && NoneForgotten(Begins(|reports|), [], reports)
  {
    BeginsOncePerSlot(|reports|);
    forall a | 0 <= a < |reports| && reports[a] == []
      ensures exists c :: Waits(Begins(|reports|), [], |reports|, a, c)
    {
      assert Waits(Begins(|reports|), [], |reports|, a, Begin(a));
    }
  }

  lemma StartKeepsInv(s: State)
    requires Inv(s) && !s.refreshing
    ensures Inv(StartRefresh(s))
  {
    if s.config != [] {
      NothingOutstanding(s);
      var reports := StartRefresh(s).reports;
      FreshReports(reports, |reports|);
      BeginsAccounted(reports);
      assert s.outstanding + Begins(|s.config|) == Begins(|s.config|);
    }
  }

  /** Handing the account's turn to another callback. */
  lemma NextAccounted(outstanding: multiset<Callback>, contexts: seq<FetchContext>, reports: seq<seq<Report>>,
                      callback: Callback, next: Callback)
    requires Accounted(outstanding, contexts, reports)
    requires callback in outstanding && !callback.Collection? && !next.Collection? && next.slot == callback.slot
    ensures Accounted(outstanding - multiset{callback} + multiset{next}, contexts, reports)
  {
    var after := outstanding - multiset{callback} + multiset{next};
    assert forall c :: c in after <==> c == next || (c in outstanding && c != callback);
    assert after[next] == 1;
  }

  lemma NextNoneForgotten(outstanding: multiset<Callback>, contexts: seq<FetchContext>, reports: seq<seq<Report>>,
                          callback: Callback, next: Callback)
    requires NoneForgotten(outstanding, contexts, reports)
    requires callback in outstanding && !callback.Collection? && !next.Collection? && next.slot == callback.slot
    ensures NoneForgotten(outstanding - multiset{callback} + multiset{next}, contexts, reports)
  {
    var after := outstanding - multiset{callback} + multiset{next};
    forall a | 0 <= a < |reports| && reports[a] == [] ensures exists c :: Waits(after, contexts, |reports|, a, c) {
      var c :| Waits(outstanding, contexts, |reports|, a, c);
      if c == callback {
        assert Waits(after, contexts, |reports|, a, next);
      } else {
        assert Waits(after, contexts, |reports|, a, c);
      }
    }
  }

  /** Fanning out to the collections of a new context. */
  lemma FanOutAccounted(outstanding: multiset<Callback>, contexts: seq<FetchContext>, reports: seq<seq<Report>>,
                        callback: Callback, count: nat)
    requires Accounted(outstanding, contexts, reports)
    requires callback in outstanding && !callback.Collection? && count > 0
    ensures Accounted((outstanding - multiset{callback})[Collection(|contexts|) := count],
                      contexts + [FetchContext(callback.slot, count, false, [])], reports)
  {
    var fresh' := Collection(|contexts|);
    var after := (outstanding - multiset{callback})[fresh' := count];
    var grown := contexts + [FetchContext(callback.slot, count, false, [])];
    assert fresh' !in outstanding && Owner(grown, fresh') == callback.slot;
    assert forall c :: c in after <==> c == fresh' || (c in outstanding && c != callback);
    forall c | c in outstanding && c != callback
      ensures Addressed(|reports|, grown, c) && Owner(grown, c) == Owner(contexts, c)
      ensures Owner(contexts, c) != callback.slot
    {
      assert Owner(contexts, callback) == callback.slot;
    }
  }

  lemma FanOutNoneForgotten(outstanding: multiset<Callback>, contexts: seq<FetchContext>, reports: seq<seq<Report>>,
                            callback: Callback, count: nat)
    requires Accounted(outstanding, contexts, reports) && NoneForgotten(outstanding, contexts, reports)
    requires callback in outstanding && !callback.Collection? && count > 0
    ensures NoneForgotten((outstanding - multiset{callback})[Collection(|contexts|) := count],
                          contexts + [FetchContext(callback.slot, count, false, [])], reports)
  {
    var fresh' := Collection(|contexts|);
    var after := (outstanding - multiset{callback})[fresh' := count];
    var grown := contexts + [FetchContext(callback.slot, count, false, [])];
    forall a | 0 <= a < |reports| && reports[a] == [] ensures exists c :: Waits(after, grown, |reports|, a, c) {
      var c :| Waits(outstanding, contexts, |reports|, a, c);
      if c == callback {
        assert Waits(after, grown, |reports|, a, fresh');
      } else {
        assert Waits(after, grown, |reports|, a, c);
      }
    }
  }

  /** One collection of several has answered. */
  lemma JoinAccounted(outstanding: multiset<Callback>, contexts: seq<FetchContext>, reports: seq<seq<Report>>,
                      ctx: nat, context: FetchContext)
    requires Accounted(outstanding, contexts, reports)
    requires ctx < |contexts| && Collection(ctx) in outstanding
    requires context.slot == contexts[ctx].slot && context.pending == contexts[ctx].pending - 1 && context.pending > 0
    ensures Accounted(outstanding - multiset{Collection(ctx)}, contexts[ctx := context], reports)
  {
    var after, updated := outstanding - multiset{Collection(ctx)}, contexts[ctx := context];
    assert forall c :: c in after <==> c in outstanding;
    assert forall c :: c in outstanding ==> Addressed(|reports|, updated, c) && Owner(updated, c) == Owner(contexts, c);
  }

  lemma JoinNoneForgotten(outstanding: multiset<Callback>, contexts: seq<FetchContext>, reports: seq<seq<Report>>,
                          ctx: nat, context: FetchContext)
    requires Accounted(outstanding, contexts, reports) && NoneForgotten(outstanding, contexts, reports)
    requires ctx < |contexts| && Collection(ctx) in outstanding
    requires context.slot == contexts[ctx].slot && context.pending == contexts[ctx].pending - 1 && context.pending > 0
    ensures NoneForgotten(outstanding - multiset{Collection(ctx)}, contexts[ctx := context], reports)
  {
    var after, updated := outstanding - multiset{Collection(ctx)}, contexts[ctx := context];
    forall a | 0 <= a < |reports| && reports[a] == [] ensures exists c :: Waits(after, updated, |reports|, a, c) {
      var c :| Waits(outstanding, contexts, |reports|, a, c);
      assert Waits(after, updated, |reports|, a, c);
    }
  }

  /** `updated` is `contexts` with the slots kept and the context `callback` counted for, if any, at zero. */
  predicate Settled(contexts: seq<FetchContext>, callback: Callback, updated: seq<FetchContext>) {
    && |updated| == |contexts|
    && forall k :: 0 <= k < |contexts| ==>
         && updated[k].slot == contexts[k].slot
         && updated[k].pending == if callback == Collection(k) then 0 else contexts[k].pending
  }

  /** The account's last callback has answered and the account reports. */
  lemma DoneAccounted(outstanding: multiset<Callback>, contexts: seq<FetchContext>, reports: seq<seq<Report>>,
                      callback: Callback, updated: seq<FetchContext>, told: seq<Report>)
    requires Accounted(outstanding, contexts, reports)
    requires callback in outstanding && outstanding[callback] == 1 && told != [] && Settled(contexts, callback, updated)
    ensures Accounted(outstanding - multiset{callback}, updated, reports[Owner(contexts, callback) := told])
  {
    var slot := Owner(contexts, callback);
    var after, heard := outstanding - multiset{callback}, reports[slot := told];
    assert forall c :: c in after <==> c in outstanding && c != callback;
    forall c | c in after
      ensures Addressed(|heard|, updated, c) && Owner(updated, c) == Owner(contexts, c)
      ensures heard[Owner(updated, c)] == []
    {
      assert Owner(contexts, c) != slot;
    }
  }

  lemma DoneNoneForgotten(outstanding: multiset<Callback>, contexts: seq<FetchContext>, reports: seq<seq<Report>>,
                          callback: Callback, updated: seq<FetchContext>, told: seq<Report>)
    requires Accounted(outstanding, contexts, reports) && NoneForgotten(outstanding, contexts, reports)
    requires callback in outstanding && outstanding[callback] == 1 && told != [] && Settled(contexts, callback, updated)
    ensures NoneForgotten(outstanding - multiset{callback}, updated, reports[Owner(contexts, callback) := told])
  {
    var slot := Owner(contexts, callback);
    var after, heard := outstanding - multiset{callback}, reports[slot := told];
    forall a | 0 <= a < |heard| && heard[a] == [] ensures exists c :: Waits(after, updated, |heard|, a, c) {
      assert a != slot;
      var c :| Waits(outstanding, contexts, |reports|, a, c);
      assert Waits(after, updated, |heard|, a, c);
    }
  }

  lemma AccountDoneKeepsInv(s: State, slot: nat, report: Report)
    requires |s.roster| == |s.reports| && slot < |s.reports| && s.reports[slot] == []
    requires Accounted(s.outstanding, s.contexts, s.reports[slot := [report]])
    requires NoneForgotten(s.outstanding, s.contexts, s.reports[slot := [report]])
    requires forall a :: 0 <= a < |s.reports| ==> |s.reports[a]| <= 1
    requires s.pendingAccounts == Unreported(s.reports, |s.reports|) && (s.refreshing <==> s.pendingAccounts > 0)
    requires s.started == s.completed + (if s.refreshing then 1 else 0)
    ensures Inv(AccountDone(s, slot, report))
  {
    assert s.reports[slot] + [report] == [report];
    ReportCounts(s.reports, slot, [report], |s.reports|);
    var told := s.reports[slot := [report]];
    assert forall a :: 0 <= a < |told| ==> |told[a]| <= 1;
  }

  /** What each kind of reaction says about the callback it answers. */
  lemma ReactionShape(roster: seq<Account>, contexts: seq<FetchContext>, callback: Callback, reply: Reply)
    requires Addressed(|roster|, contexts, callback)
    ensures match React(roster, contexts, callback, reply)
      case Next(next) =>
        && !callback.Collection? && !next.Collection?
        && next.slot == callback.slot && Weight(next) < Weight(callback)
      case FanOut(slot, count) => callback == Discovery(slot) && count > 0
      case Join(ctx, context) => callback == Collection(ctx) && context == JoinCollection(contexts[ctx], reply)
      case Done(slot, report) => !callback.Collection? && callback.slot == slot && Weight(callback) > 0
  {
  }

  lemma NextKeepsInv(s: State, callback: Callback, next: Callback)
    requires Inv(s) && callback in s.outstanding
    requires !callback.Collection? && !next.Collection? && next.slot == callback.slot
    ensures Inv(s.(outstanding := s.outstanding - multiset{callback} + multiset{next}))
  {
    NextAccounted(s.outstanding, s.contexts, s.reports, callback, next);
    NextNoneForgotten(s.outstanding, s.contexts, s.reports, callback, next);
  }

  lemma FanOutKeepsInv(s: State, callback: Callback, count: nat)
    requires Inv(s) && callback in s.outstanding && !callback.Collection? && count > 0
    ensures Inv(s.(outstanding := (s.outstanding - multiset{callback})[Collection(|s.contexts|) := count],
                   contexts := s.contexts + [FetchContext(callback.slot, count, false, [])]))
  {
    FanOutAccounted(s.outstanding, s.contexts, s.reports, callback, count);
    FanOutNoneForgotten(s.outstanding, s.contexts, s.reports, callback, count);
  }

  lemma JoinKeepsInv(s: State, ctx: nat, reply: Reply)
    requires Inv(s) && Collection(ctx) in s.outstanding && s.contexts[ctx].pending > 1
    ensures Inv(s.(outstanding := s.outstanding - multiset{Collection(ctx)},
                   contexts := s.contexts[ctx := JoinCollection(s.contexts[ctx], reply)]))
  {
    var context := JoinCollection(s.contexts[ctx], reply);
    JoinAccounted(s.outstanding, s.contexts, s.reports, ctx, context);
    JoinNoneForgotten(s.outstanding, s.contexts, s.reports, ctx, context);
  }

  lemma DoneKeepsInv(s: State, callback: Callback, updated: seq<FetchContext>, report: Report)
    requires Inv(s) && callback in s.outstanding && s.outstanding[callback] == 1
    requires Settled(s.contexts, callback, updated)
    ensures Inv(AccountDone(s.(outstanding := s.outstanding - multiset{callback}, contexts := updated),
                            Owner(s.contexts, callback), report))
  {
    DoneAccounted(s.outstanding, s.contexts, s.reports, callback, updated, [report]);
    DoneNoneForgotten(s.outstanding, s.contexts, s.reports, callback, updated, [report]);
    AccountDoneKeepsInv(s.(outstanding := s.outstanding - multiset{callback}, contexts := updated),
                        Owner(s.contexts, callback), report);
  }

  /** Delivering any outstanding callback, whatever it answers, keeps the invariant. */
  lemma DeliveryKeepsInv(s: State, callback: Callback, reply: Reply)
    requires Inv(s) && callback in s.outstanding
    ensures Inv(Delivered(s, callback, reply))
  {
    ReactionShape(s.roster, s.contexts, callback, reply);
    match React(s.roster, s.contexts, callback, reply)
    case Next(next) => NextKeepsInv(s, callback, next);
    case FanOut(slot, count) => FanOutKeepsInv(s, callback, count);
    case Join(ctx, context) =>
      if context.pending > 0 {
        JoinKeepsInv(s, ctx, reply);
      } else {
        DoneKeepsInv(s, callback, s.contexts[ctx := context], Report(context.anyOk, context.events));
      }
    case Done(slot, report) =>
      DoneKeepsInv(s, callback, s.contexts, report);
      assert s.(outstanding := s.outstanding - multiset{callback}, contexts := s.contexts)
          == s.(outstanding := s.outstanding - multiset{callback});
  }

  lemma StepKeepsInv(s: State, action: Action, t: State)
    requires Inv(s) && Step(s, action, t)
    ensures Inv(t)
  {
    match action
    case Tick(due) =>
      if due && s.enabled && !s.refreshing {
        StartKeepsInv(s);
      }
    case Deliver(callback, reply) => DeliveryKeepsInv(s, callback, reply);
    case ConfigReload(enabled, config, settings) =>
    case CacheLoad(cached) =>
  }

  ghost predicate StepAt(states: seq<State>, actions: seq<Action>, i: nat)
    requires i < |actions| && |states| == |actions| + 1
  {
    Step(states[i], actions[i], states[i + 1])
  }

  /** From any state in which no refresh is running: whatever events a cache or earlier refreshes left. */
  ghost predicate IsRun(states: seq<State>, actions: seq<Action>) {
    && |states| == |actions| + 1
    && Inv(states[0]) && !states[0].refreshing
    && forall i :: 0 <= i < |actions| ==> StepAt(states, actions, i)
  }

  lemma {:induction false} RunKeepsInv(states: seq<State>, actions: seq<Action>, i: nat)
    requires IsRun(states, actions) && i < |states|
    ensures Inv(states[i])
  {
    if i > 0 {
      RunKeepsInv(states, actions, i - 1);
      assert StepAt(states, actions, i - 1);
      StepKeepsInv(states[i - 1], actions[i - 1], states[i]);
    }
  }

  /** Every reachable state: the counter is the number of accounts yet to report, a refresh is running
      exactly while something is outstanding, no account reports twice, and none is left out when the
      refresh ends; one snapshot is rebuilt per refresh started, save the one still running. */
  lemma RefreshAccounting(states: seq<State>, actions: seq<Action>, i: nat)
    requires IsRun(states, actions) && i < |states|
    ensures var s := states[i];
      && s.pendingAccounts == Unreported(s.reports, |s.reports|)
      && (s.refreshing <==> s.outstanding != multiset{})
      && (forall a :: 0 <= a < |s.reports| ==> |s.reports[a]| <= 1)
      && (!s.refreshing ==> forall a :: 0 <= a < |s.reports| ==> |s.reports[a]| == 1)
      && s.started == s.completed + (if s.refreshing then 1 else 0)
  {
    var s := states[i];
    RunKeepsInv(states, actions, i);
    NoneUnreported(s.reports, |s.reports|);
    if s.refreshing {
      var a :| 0 <= a < |s.reports| && s.reports[a] == [];
      var c :| Waits(s.outstanding, s.contexts, |s.reports|, a, c);
      assert c in s.outstanding;
    } else {
      forall c ensures c !in s.outstanding {
      }
    }
  }

  // ---- every refresh ends ----

  /** How many handlers may still run for a callback before it reports or fans out. */
  function Weight(callback: Callback): nat {
    match callback
    case Begin(_) => 6
    case Password(_) => 2
    case Discovery(_) => 1
    case Collection(_) => 0
    case TokenLookup(_) => 4
    case TokenRefresh(_) => 3
    case TokenStore(_) => 2
    case GoogleFetch(_, allowRefreshRetry) => if allowRefreshRetry then 5 else 1
    case IcsResponse(_) => 1
    case VdirResult(_) => 1
  }

  ghost function Work(outstanding: multiset<Callback>): nat
    decreases |outstanding|
  {
    if outstanding == multiset{} then 0
    else
      var c :| c in outstanding;
      Weight(c) + Work(outstanding - multiset{c})
  }

  lemma {:induction false} WorkSplit(outstanding: multiset<Callback>, c: Callback)
    requires c in outstanding
    ensures Work(outstanding) == Weight(c) + Work(outstanding - multiset{c})
    decreases |outstanding|
  {
    var first :| first in outstanding && Work(outstanding) == Weight(first) + Work(outstanding - multiset{first});
    if first != c {
      var rest, others := outstanding - multiset{first}, outstanding - multiset{c};
      assert c in rest && first in others;
      assert rest - multiset{c} == others - multiset{first};
      WorkSplit(rest, c);
      WorkSplit(others, first);
    }
  }

  lemma {:induction false} CollectionsWeighNothing(outstanding: multiset<Callback>, ctx: nat, count: nat)
    requires Collection(ctx) !in outstanding
    ensures Work(outstanding[Collection(ctx) := count]) == Work(outstanding)
  {
    var c := Collection(ctx);
    if count == 0 {
      assert outstanding[c := 0] == outstanding;
    } else {
      CollectionsWeighNothing(outstanding, ctx, count - 1);
      WorkSplit(outstanding[c := count], c);
      assert outstanding[c := count] - multiset{c} == outstanding[c := count - 1];
    }
  }

  lemma NextLowersWork(outstanding: multiset<Callback>, callback: Callback, next: Callback)
    requires callback in outstanding && Weight(next) < Weight(callback)
    ensures Work(outstanding - multiset{callback} + multiset{next}) < Work(outstanding)
  {
    var rest := outstanding - multiset{callback};
    WorkSplit(outstanding, callback);
    WorkSplit(rest + multiset{next}, next);
    assert rest + multiset{next} - multiset{next} == rest;
  }

  predicate LessWork(work: nat, after: multiset<Callback>, before: nat, outstanding: multiset<Callback>) {
    work < before || (work == before && |after| < |outstanding|)
  }

  lemma ReactionLowersWork(outstanding: multiset<Callback>, contexts: nat, callback: Callback, reaction: Reaction)
    requires callback in outstanding && Collection(contexts) !in outstanding
    requires reaction.Next? ==> Weight(reaction.callback) < Weight(callback)
    requires reaction.FanOut? ==> Weight(callback) > 0
    ensures var after := OutstandingAfter(outstanding, contexts, callback, reaction);
      LessWork(Work(after), after, Work(outstanding), outstanding)
  {
    WorkSplit(outstanding, callback);
    if reaction.Next? {
      NextLowersWork(outstanding, callback, reaction.callback);
    } else if reaction.FanOut? {
      CollectionsWeighNothing(outstanding - multiset{callback}, contexts, reaction.count);
    }
  }

  lemma AccountDoneParts(s: State, slot: nat, report: Report)
    requires slot < |s.roster| == |s.reports|
    ensures var t := AccountDone(s, slot, report);
      t.outstanding == s.outstanding && t.started == s.started && t.roster == s.roster
  {
  }

  lemma AppliedParts(s: State, callback: Callback, reaction: Reaction)
    requires Fits(s, reaction)
    ensures var t := Applied(s, callback, reaction);
      && t.outstanding == OutstandingAfter(s.outstanding, |s.contexts|, callback, reaction)
      && t.started == s.started && t.roster == s.roster
  {
    var taken := s.(outstanding := OutstandingAfter(s.outstanding, |s.contexts|, callback, reaction));
    if reaction.Done? {
      AccountDoneParts(taken, reaction.slot, reaction.report);
    } else if reaction.Join? {
      var context := reaction.context;
      AccountDoneParts(taken.(contexts := s.contexts[reaction.ctx := context]), context.slot,
                       Report(context.anyOk, context.events));
    }
  }

  lemma DeliveredParts(s: State, callback: Callback, reply: Reply)
    requires Inv(s) && callback in s.outstanding
    ensures var t, reaction := Delivered(s, callback, reply), React(s.roster, s.contexts, callback, reply);
      && t.outstanding == OutstandingAfter(s.outstanding, |s.contexts|, callback, reaction)
      && t.started == s.started && t.roster == s.roster
  {
    AppliedParts(s, callback, React(s.roster, s.contexts, callback, reply));
  }

  /** Each delivery leaves less work, or as much work and fewer callbacks; the token retry cannot loop
      and any order of deliveries ends, with the refresh complete. */
  lemma DeliveryMakesProgress(s: State, callback: Callback, reply: Reply, t: State)
    requires Inv(s) && Step(s, Deliver(callback, reply), t)
    ensures LessWork(Work(t.outstanding), t.outstanding, Work(s.outstanding), s.outstanding)
  {
    ReactionShape(s.roster, s.contexts, callback, reply);
    DeliveredParts(s, callback, reply);
    ReactionLowersWork(s.outstanding, |s.contexts|, callback, React(s.roster, s.contexts, callback, reply));
  }

  lemma StillRefreshing(s: State, callback: Callback)
    requires Inv(s) && callback in s.outstanding
    ensures s.refreshing
  {
    NoneUnreported(s.reports, |s.reports|);
  }

  lemma InvIgnoresSnapshot(s: State, t: State)
    requires Inv(s) && t == s.(snapshot := t.snapshot)
    ensures Inv(t)
  {
  }

  /** Only a delivery ends a refresh. */
  lemma EndIsDelivery(s: State, action: Action, t: State)
    requires Inv(s) && Step(s, action, t) && s.refreshing && !t.refreshing
    ensures action.Deliver? && t.completed == s.completed + 1
  {
    StepKeepsInv(s, action, t);
    if action.Deliver? {
      DeliveredParts(s, action.callback, action.reply);
    }
  }
}
