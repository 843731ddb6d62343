/** src/calendar/calendar_service.cpp: the refresh as the service runs it, field by field. */
module CalendarService {
  import opened CalendarTypes
  import opened Sorting
  import P = RefreshProtocol

  class CalendarService {
    var enabled: bool
    var config: seq<P.Account>
    var settings: string
    var roster: seq<P.Account>
    var refreshing: bool
    var pendingAccounts: nat
    var eventsByAccount: P.EventMap
    var snapshot: CalendarSnapshot
    var outstanding: multiset<P.Callback>
    var contexts: seq<P.FetchContext>
    ghost var reports: seq<seq<P.Report>>
    ghost var base: P.EventMap
    ghost var writes: seq<P.Write>
    ghost var started: nat
    ghost var completed: nat

    ghost function View(): P.State
      reads this
    {
      P.State(enabled, config, settings, roster, refreshing, pendingAccounts, eventsByAccount, snapshot, outstanding,
              contexts, reports, base, writes, started, completed)
    }

    constructor ()
      ensures View() == P.INITIAL
    {
      enabled, config, settings, roster := true, [], "", [];
      refreshing, pendingAccounts := false, 0;
      eventsByAccount, snapshot := map[], CalendarSnapshot(false, []);
      outstanding, contexts := multiset{}, [];
      reports, base, writes, started, completed := [], map[], [], 0, 0;
    }

    method DropUnconfigured(events: P.EventMap) returns (kept: P.EventMap)
      ensures kept == P.DropUnconfigured(events, config)
    {
      kept := events;
      var ids := events.Keys;
      while ids != {}
        invariant ids <= events.Keys
        invariant kept == map id | id in events && (id in ids || P.Configured(config, id)) :: events[id]
        decreases |ids|
      {
        var id :| id in ids;
        ids := ids - {id};
        if !exists i :: 0 <= i < |config| && config[i].id == id {
          kept := kept - {id};
        }
      }
    }

    method MergeEvents(events: P.EventMap) returns (merged: seq<CalendarEvent>)
      ensures multiset(merged) == P.MergedEvents(events)
    {
      merged := [];
      var left := events;
      while left != map[]
        invariant multiset(merged) + P.MergedEvents(left) == P.MergedEvents(events)
        decreases |left|
      {
        var id :| id in left;
        P.MergedSplit(left, id);
        merged := merged + left[id];
        left := left - {id};
      }
    }

    /** Drops the accounts no longer configured and sorts the events of the others into the snapshot. */
    method RebuildSnapshot()
      modifies this`eventsByAccount, this`snapshot
      ensures eventsByAccount == P.DropUnconfigured(old(eventsByAccount), config)
      ensures P.Rebuilt(eventsByAccount, snapshot)
    {
      eventsByAccount := DropUnconfigured(eventsByAccount);
      var merged := MergeEvents(eventsByAccount);
      var sorted := Sort(merged, StartsBefore);
      assert forall i, j :: 0 <= i < j < |sorted| ==> !StartsBefore(sorted[j], sorted[i]);
      snapshot := CalendarSnapshot(true, sorted);
    }

    method Tell(slot: nat, ok: bool, events: seq<CalendarEvent>)
      requires slot < |roster| == |reports|
      modifies this`eventsByAccount, this`pendingAccounts, this`reports, this`writes
      ensures View() == P.Told(old(View()), slot, P.Report(ok, events))
    {
      if ok {
        eventsByAccount := eventsByAccount[roster[slot].id := events];
        writes := writes + [P.Reported(slot, events)];
      }
      if pendingAccounts > 0 {
        pendingAccounts := pendingAccounts - 1;
      }
      reports := reports[slot := reports[slot] + [P.Report(ok, events)]];
    }

    method AccountDone(slot: nat, ok: bool, events: seq<CalendarEvent>)
      requires slot < |roster| == |reports|
      modifies this
      ensures P.SnapshotFollows(old(View()), P.AccountDone(old(View()), slot, P.Report(ok, events)), View())
    {
      Tell(slot, ok, events);
      if pendingAccounts == 0 {
        refreshing := false;
        RebuildSnapshot();
        completed := completed + 1;
      }
    }

    method Enroll(begins: multiset<P.Callback>)
      modifies this`refreshing, this`pendingAccounts, this`roster, this`contexts, this`outstanding
      ensures refreshing && pendingAccounts == |config| && roster == config && contexts == []
      ensures outstanding == old(outstanding) + begins
    {
      refreshing, pendingAccounts := true, |config|;
      roster, contexts, outstanding := config, [], outstanding + begins;
    }

    ghost method RecordStart()
      modifies this`reports, this`base, this`writes, this`started
      ensures reports == P.NoReports(|config|) && base == eventsByAccount && writes == [] && started == old(started) + 1
    {
      reports, base, writes, started := P.NoReports(|config|), eventsByAccount, [], started + 1;
    }

    method StartRefresh()
      modifies this
      ensures View() == P.StartRefresh(old(View()))
    {
      if config != [] {
        var begins := BeginAccounts(|config|);
        Enroll(begins);
        RecordStart();
      }
    }

    method BeginAccounts(count: nat) returns (begins: multiset<P.Callback>)
      ensures begins == P.Begins(count)
    {
      begins := multiset{};
      for slot := 0 to count
        invariant begins == P.Begins(slot)
      {
        begins := begins + multiset{P.Begin(slot)};
      }
    }

    method Tick(due: bool)
      modifies this
      ensures P.Step(old(View()), P.Tick(due), View())
    {
      if due && enabled && !refreshing {
        StartRefresh();
      }
    }

    method Wipe()
      modifies this`eventsByAccount, this`snapshot, this`writes
      ensures View() == old(View()).(eventsByAccount := map[], snapshot := CalendarSnapshot(false, []),
                                     writes := old(writes) + [P.Wiped])
    {
      eventsByAccount, snapshot, writes := map[], CalendarSnapshot(false, []), writes + [P.Wiped];
    }

    method OnConfigReload(nextEnabled: bool, nextConfig: seq<P.Account>, nextSettings: string)
      modifies this`enabled, this`config, this`settings, this`eventsByAccount, this`snapshot, this`writes
      ensures P.Step(old(View()), P.ConfigReload(nextEnabled, nextConfig, nextSettings), View())
    {
      if nextEnabled == enabled && nextConfig == config && nextSettings == settings {
        return;
      }
      enabled, config, settings := nextEnabled, nextConfig, nextSettings;
      if !enabled {
        Wipe();
      }
    }

    /** parseCache once the text has been read: it does not ask whether a refresh is running. */
    method InstallCache(cached: P.EventMap)
      modifies this`eventsByAccount, this`snapshot, this`writes
      ensures P.Step(old(View()), P.CacheLoad(cached), View())
    {
      eventsByAccount := cached;
      if cached != map[] {
        RebuildSnapshot();
      }
      writes := writes + [P.Loaded(eventsByAccount)];
    }

    /** The handler of `callback` issues another operation. */
    method Await(callback: P.Callback, next: P.Callback)
      requires |roster| == |reports|
      modifies this`outstanding
      ensures View() == P.Applied(old(View()), callback, P.Next(next))
    {
      outstanding := outstanding - multiset{callback} + multiset{next};
    }

    /** The handler of `callback` reports its account. */
    method Finish(callback: P.Callback, slot: nat, ok: bool, events: seq<CalendarEvent>)
      requires slot < |roster| == |reports|
      modifies this
      ensures P.SnapshotFollows(old(View()), P.Applied(old(View()), callback, P.Done(slot, P.Report(ok, events))),
                                View())
    {
      ghost var before := View();
      outstanding := outstanding - multiset{callback};
      ghost var taken := View();
      AccountDone(slot, ok, events);
      SnapshotFollowsFrom(before, taken, P.AccountDone(taken, slot, P.Report(ok, events)), View());
    }

    /** One request per selected collection, all counted by one new context. */
    method FetchCollections(callback: P.Callback, slot: nat, count: nat)
      requires |roster| == |reports|
      modifies this`outstanding, this`contexts
      ensures View() == P.Applied(old(View()), callback, P.FanOut(slot, count))
    {
      var context := P.FetchContext(slot, count, false, []);
      outstanding := (outstanding - multiset{callback})[P.Collection(|contexts|) := count];
      contexts := contexts + [context];
    }

    method JoinCollection(context: P.FetchContext, reply: P.Reply) returns (joined: P.FetchContext)
      ensures joined == P.JoinCollection(context, reply)
    {
      joined := context;
      if reply.ok {
        joined := joined.(anyOk := true, events := joined.events + reply.events);
      }
      if joined.pending > 0 {
        joined := joined.(pending := joined.pending - 1);
      }
    }

    method CollectionDone(ctx: nat, reply: P.Reply)
      requires ctx < |contexts| && contexts[ctx].slot < |roster| == |reports|
      modifies this
      ensures P.SnapshotFollows(
                old(View()),
                P.Applied(old(View()), P.Collection(ctx), P.Join(ctx, P.JoinCollection(old(contexts)[ctx], reply))),
                View())
    {
      var context := JoinCollection(contexts[ctx], reply);
      ghost var before := View();
      Rejoin(ctx, context);
      if context.pending == 0 {
        ghost var joined := View();
        AccountDone(context.slot, context.anyOk, context.events);
        SnapshotFollowsFrom(before, joined,
                            P.AccountDone(joined, context.slot, P.Report(context.anyOk, context.events)), View());
      }
    }

    method Rejoin(ctx: nat, context: P.FetchContext)
      requires ctx < |contexts|
      modifies this`outstanding, this`contexts
      ensures View() == old(View()).(outstanding := old(outstanding) - multiset{P.Collection(ctx)},
                                     contexts := old(contexts)[ctx := context])
    {
      outstanding, contexts := outstanding - multiset{P.Collection(ctx)}, contexts[ctx := context];
    }

    method BeginAccount(slot: nat, reply: P.Reply)
      requires slot < |roster| == |reports|
      modifies this
      ensures P.SnapshotFollows(
                old(View()),
                P.Applied(old(View()), P.Begin(slot), P.BeginAccount(old(roster)[slot].kind, slot, reply.ok)),
                View())
    {
      var callback, kind := P.Begin(slot), roster[slot].kind;
      if kind.CalDav? && kind.configured {
        Await(callback, P.Password(slot));
      } else if kind.Google? && reply.ok {
        Await(callback, P.GoogleFetch(slot, true));
      } else if kind.Google? {
        Await(callback, P.TokenLookup(slot));
      } else if kind.Ics? && kind.hasUrl {
        Await(callback, P.IcsResponse(slot));
      } else if kind.Vdir? && reply.ok {
        Await(callback, P.VdirResult(slot));
      } else {
        Finish(callback, slot, false, []);
      }
    }

    /** The three token steps go on to `next` or give up. */
    method OnStep(callback: P.Callback, slot: nat, ok: bool, next: P.Callback)
      requires slot < |roster| == |reports|
      modifies this
      ensures P.SnapshotFollows(
                old(View()),
                P.Applied(old(View()), callback, if ok then P.Next(next) else P.Done(slot, P.FAILED)),
                View())
    {
      if ok {
        Await(callback, next);
      } else {
        Finish(callback, slot, false, []);
      }
    }

    /** A callback answers: its handler waits for another one, or reports the account. */
    method Deliver(callback: P.Callback, reply: P.Reply)
      requires callback in outstanding && P.Addressed(|roster|, contexts, callback) && |roster| == |reports|
      modifies this
      ensures P.Step(old(View()), P.Deliver(callback, reply), View())
    {
      match callback
      case Begin(slot) => BeginAccount(slot, reply);
      case Password(slot) => OnStep(callback, slot, reply.ok, P.Discovery(slot));
      case Discovery(slot) =>
        if reply.ok && reply.selected > 0 {
          FetchCollections(callback, slot, reply.selected);
        } else {
          Finish(callback, slot, false, []);
        }
      case Collection(ctx) => CollectionDone(ctx, reply);
      case TokenLookup(slot) => OnStep(callback, slot, reply.ok, P.TokenRefresh(slot));
      case TokenRefresh(slot) => OnStep(callback, slot, reply.ok, P.TokenStore(slot));
      case TokenStore(slot) => OnStep(callback, slot, reply.ok, P.GoogleFetch(slot, false));
      case GoogleFetch(slot, allowRefreshRetry) =>
        if reply.unauthorized && allowRefreshRetry {
          Await(callback, P.TokenLookup(slot));
        } else {
          Finish(callback, slot, reply.ok && !reply.unauthorized, reply.events);
        }
      case IcsResponse(slot) =>
        if reply.ok {
          Finish(callback, slot, true, reply.events);
        } else {
          Finish(callback, slot, false, []);
        }
      case VdirResult(slot) => Finish(callback, slot, reply.ok, reply.events);
    }
  }

  lemma SnapshotFollowsFrom(before: P.State, between: P.State, core: P.State, after: P.State)
    requires P.SnapshotFollows(between, core, after)
    requires between.completed == before.completed && between.snapshot == before.snapshot
    ensures P.SnapshotFollows(before, core, after)
  {
  }
}
