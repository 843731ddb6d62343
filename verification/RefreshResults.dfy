/** src/calendar/calendar_service.cpp: what a refresh leaves each account with, cache loads and disabling included. */
module RefreshResults {
  import opened Wrappers
  import opened CalendarTypes
  import opened RefreshProtocol

  // ---- what the writes leave ----

  function Get(events: EventMap, id: string): Option<seq<CalendarEvent>> {
    if id in events then Some(events[id]) else None
  }

  /** What a cache load or a wipe holds of an account. */
  function Held(write: Write, id: string): Option<seq<CalendarEvent>> {
    if write.Loaded? then Get(write.kept, id) else None
  }

  predicate ReportsFor(roster: seq<Account>, write: Write, id: string) {
    write.Reported? && write.slot < |roster| && roster[write.slot].id == id
  }

  /** The events of an account after the first `n` writes of a refresh that began with `base`. */
  function Left(roster: seq<Account>, base: EventMap, writes: seq<Write>, id: string, n: nat)
    : Option<seq<CalendarEvent>>
    requires n <= |writes|
  {
    if n == 0 then Get(base, id)
    else if ReportsFor(roster, writes[n - 1], id) then Some(writes[n - 1].events)
    else if writes[n - 1].Reported? then Left(roster, base, writes, id, n - 1)
    else Held(writes[n - 1], id)
  }

  /** How many of the first `n` writes come up to the last one that concerns every account. */
  function LastForAll(writes: seq<Write>, n: nat): (at: nat)
    requires n <= |writes|
    ensures at <= n && (at > 0 ==> !writes[at - 1].Reported?)
    ensures forall k :: at <= k < n ==> writes[k].Reported?
  {
    if n == 0 || !writes[n - 1].Reported? then n else LastForAll(writes, n - 1)
  }

  /** What the last cache load or wipe left of an account, or what the refresh began with. */
  function Ground(base: EventMap, writes: seq<Write>, id: string): Option<seq<CalendarEvent>> {
    var at := LastForAll(writes, |writes|);
    if at == 0 then Get(base, id) else Held(writes[at - 1], id)
  }

  lemma {:induction false} LeftAgrees(roster: seq<Account>, base: EventMap, a: seq<Write>, b: seq<Write>, id: string,
                                      n: nat)
    requires n <= |a| && n <= |b| && forall k :: 0 <= k < n ==> a[k] == b[k]
    ensures Left(roster, base, a, id, n) == Left(roster, base, b, id, n)
  {
    if n > 0 {
      LeftAgrees(roster, base, a, b, id, n - 1);
    }
  }

  lemma LeftAfter(roster: seq<Account>, base: EventMap, writes: seq<Write>, write: Write, id: string)
    ensures Left(roster, base, writes + [write], id, |writes| + 1) ==
            if ReportsFor(roster, write, id) then Some(write.events)
            else if write.Reported? then Left(roster, base, writes, id, |writes|)
            else Held(write, id)
  {
    LeftAgrees(roster, base, writes + [write], writes, id, |writes|);
  }

  /** Without a report after the last write for all, that write stands. */
  lemma {:induction false} GroundStands(roster: seq<Account>, base: EventMap, writes: seq<Write>, id: string, n: nat)
    requires LastForAll(writes, |writes|) <= n <= |writes|
    requires forall k :: LastForAll(writes, |writes|) <= k < n ==> !ReportsFor(roster, writes[k], id)
    ensures Left(roster, base, writes, id, n) == Ground(base, writes, id)
  {
    if n > LastForAll(writes, |writes|) {
      GroundStands(roster, base, writes, id, n - 1);
    }
  }

  /** The last report after it stands otherwise. */
  lemma {:induction false} ReportStands(roster: seq<Account>, base: EventMap, writes: seq<Write>, id: string, k: nat,
                                        n: nat)
    requires LastForAll(writes, |writes|) <= k < n <= |writes| && ReportsFor(roster, writes[k], id)
    requires forall j :: k < j < n ==> !ReportsFor(roster, writes[j], id)
    ensures Left(roster, base, writes, id, n) == Some(writes[k].events)
  {
    if k < n - 1 {
      ReportStands(roster, base, writes, id, k, n - 1);
    }
  }

  // ---- the ledger of a refresh ----

  predicate DistinctIds(roster: seq<Account>) {
    forall i, j :: 0 <= i < j < |roster| ==> roster[i].id != roster[j].id
  }

  predicate IsReport(reports: seq<seq<Report>>, write: Write) {
    write.Reported? ==> write.slot < |reports| && reports[write.slot] == [Report(true, write.events)]
  }

  predicate HasWrite(reports: seq<seq<Report>>, writes: seq<Write>, slot: nat)
    requires slot < |reports|
  {
    reports[slot] != [] && reports[slot][0].ok ==> Reported(slot, reports[slot][0].events) in writes
  }

  predicate OneSlotEach(writes: seq<Write>) {
    forall k, l :: 0 <= k < l < |writes| && writes[k].Reported? && writes[l].Reported? ==>
      writes[k].slot != writes[l].slot
  }

  /** The successful reports are among the writes, each once. */
  predicate Recorded(reports: seq<seq<Report>>, writes: seq<Write>) {
    && (forall k :: 0 <= k < |writes| ==> IsReport(reports, writes[k]))
    && (forall slot :: 0 <= slot < |reports| ==> HasWrite(reports, writes, slot))
    && OneSlotEach(writes)
  }

  predicate Known(roster: seq<Account>, base: EventMap, writes: seq<Write>, events: EventMap, id: string) {
    Get(events, id) == Left(roster, base, writes, id, |writes|)
  }

  ghost predicate AllKnown(s: State) {
    forall id :: Known(s.roster, s.base, s.writes, s.eventsByAccount, id)
  }

  ghost predicate Ledger(s: State) {
    s.refreshing ==> Recorded(s.reports, s.writes) && AllKnown(s)
  }

  function WritesAfter(writes: seq<Write>, slot: nat, report: Report): seq<Write> {
    if report.ok then writes + [Reported(slot, report.events)] else writes
  }

  function EventsAfter(roster: seq<Account>, events: EventMap, slot: nat, report: Report): EventMap
    requires slot < |roster|
  {
    if report.ok then events[roster[slot].id := report.events] else events
  }

  lemma KnownAfterReport(roster: seq<Account>, base: EventMap, writes: seq<Write>, events: EventMap, slot: nat,
                         report: Report, id: string)
    requires slot < |roster| && Known(roster, base, writes, events, id)
    ensures Known(roster, base, WritesAfter(writes, slot, report), EventsAfter(roster, events, slot, report), id)
  {
    LeftAfter(roster, base, writes, Reported(slot, report.events), id);
  }

  lemma NoWriteYet(reports: seq<seq<Report>>, writes: seq<Write>, slot: nat, k: nat)
    requires Recorded(reports, writes) && slot < |reports| && reports[slot] == [] && k < |writes|
    ensures writes[k].Reported? ==> writes[k].slot != slot
  {
    assert IsReport(reports, writes[k]);
  }

  lemma RecordedAfterReport(reports: seq<seq<Report>>, writes: seq<Write>, slot: nat, report: Report)
    requires Recorded(reports, writes) && slot < |reports| && reports[slot] == []
    ensures Recorded(reports[slot := [report]], WritesAfter(writes, slot, report))
  {
    var heard, after := reports[slot := [report]], WritesAfter(writes, slot, report);
    forall k | 0 <= k < |writes|
      ensures IsReport(heard, writes[k]) && (writes[k].Reported? ==> writes[k].slot != slot)
    {
      NoWriteYet(reports, writes, slot, k);
      assert IsReport(reports, writes[k]);
    }
    forall k | 0 <= k < |after| ensures IsReport(heard, after[k]) {
      assert k < |writes| ==> after[k] == writes[k];
    }
    forall a | 0 <= a < |heard| ensures HasWrite(heard, after, a) {
      if a == slot {
        assert report.ok ==> after[|writes|] == Reported(slot, report.events);
      } else {
        assert HasWrite(reports, writes, a);
      }
    }
  }

  // ---- deliveries ----

  /** `t` is `s` once the account in `slot` has reported. */
  predicate Heard(s: State, slot: nat, report: Report, t: State)
    requires slot < |s.roster| && slot < |s.reports|
  {
    var events := EventsAfter(s.roster, s.eventsByAccount, slot, report);
    && t.reports == s.reports[slot := s.reports[slot] + [report]]
    && t.writes == WritesAfter(s.writes, slot, report)
    && (t.completed == s.completed ==> t.refreshing == s.refreshing && t.eventsByAccount == events)
    && (t.completed != s.completed ==> !t.refreshing && t.eventsByAccount == DropUnconfigured(events, s.config))
  }

  predicate SameBackground(s: State, t: State) {
    t.roster == s.roster && t.base == s.base && t.config == s.config && t.enabled == s.enabled
  }

  /** `t` differs from `s` in what is waited for only. */
  predicate Quiet(s: State, t: State) {
    t == s.(outstanding := t.outstanding, contexts := t.contexts)
  }

  lemma AccountDoneIsHeard(s: State, taken: State, slot: nat, report: Report)
    requires slot < |s.roster| == |s.reports| && Quiet(s, taken)
    ensures Heard(s, slot, report, AccountDone(taken, slot, report))
    ensures SameBackground(s, AccountDone(taken, slot, report))
  {
  }

  lemma QuietBackground(s: State, t: State)
    requires Quiet(s, t)
    ensures SameBackground(s, t) && t.reports == s.reports && t.writes == s.writes
    ensures t.eventsByAccount == s.eventsByAccount
    ensures t.refreshing == s.refreshing && t.completed == s.completed && t.snapshot == s.snapshot
  {
  }

  /** Whether a reaction reports an account, and for which slot. */
  predicate Ends(reaction: Reaction, slot: nat, report: Report) {
    || reaction == Done(slot, report)
    || (reaction.Join? && reaction.context.pending == 0 && reaction.context.slot == slot
        && report == Report(reaction.context.anyOk, reaction.context.events))
  }

  lemma ReportingIsHeard(s: State, callback: Callback, reaction: Reaction, slot: nat, report: Report)
    requires Fits(s, reaction) && slot < |s.roster| && Ends(reaction, slot, report)
    ensures Heard(s, slot, report, Applied(s, callback, reaction)) && SameBackground(s, Applied(s, callback, reaction))
  {
    var taken := s.(outstanding := OutstandingAfter(s.outstanding, |s.contexts|, callback, reaction));
    if reaction.Done? {
      AccountDoneIsHeard(s, taken, slot, report);
    } else {
      AccountDoneIsHeard(s, taken.(contexts := s.contexts[reaction.ctx := reaction.context]), slot, report);
    }
  }

  lemma WaitingIsQuiet(s: State, callback: Callback, reaction: Reaction)
    requires Fits(s, reaction) && !reaction.Done? && (reaction.Join? ==> reaction.context.pending > 0)
    ensures Quiet(s, Applied(s, callback, reaction))
  {
  }

  /** A delivery either leaves everything known as it was or reports an account that had not reported. */
  lemma DeliveryCase(s: State, callback: Callback, reply: Reply) returns (done: bool, slot: nat, report: Report)
    requires Inv(s) && callback in s.outstanding
    ensures slot < |s.roster| && s.reports[slot] == []
    ensures SameBackground(s, Delivered(s, callback, reply))
    ensures done ==> Heard(s, slot, report, Delivered(s, callback, reply))
    ensures !done ==> Quiet(s, Delivered(s, callback, reply))
  {
    ReactionShape(s.roster, s.contexts, callback, reply);
    var reaction := React(s.roster, s.contexts, callback, reply);
    done, slot, report := false, Owner(s.contexts, callback), FAILED;
    if reaction.Done? || (reaction.Join? && reaction.context.pending == 0) {
      done := true;
      report := if reaction.Done? then reaction.report else Report(reaction.context.anyOk, reaction.context.events);
      ReportingIsHeard(s, callback, reaction, slot, report);
    } else {
      WaitingIsQuiet(s, callback, reaction);
    }
  }

  // ---- the end of a refresh ----

  /** Every account has reported exactly once, unconfigured accounts are gone, each configured one has what
      the last of its successful report, the cache loads and the wipes left, or else what it had before, and
      the snapshot is the sorted union of all of them. */
  ghost predicate Concluded(s: State) {
    && |s.roster| == |s.reports| && (forall a :: 0 <= a < |s.reports| ==> |s.reports[a]| == 1)
    && (forall id :: id in s.eventsByAccount ==> Configured(s.config, id))
    && (forall id :: Configured(s.config, id) ==> Known(s.roster, s.base, s.writes, s.eventsByAccount, id))
    && Recorded(s.reports, s.writes)
    && Rebuilt(s.eventsByAccount, s.snapshot)
  }

  lemma HeardKeepsLedger(s: State, slot: nat, report: Report, t: State)
    requires |s.roster| == |s.reports| && slot < |s.roster| && s.reports[slot] == [] && Recorded(s.reports, s.writes)
    requires AllKnown(s)
    requires Heard(s, slot, report, t) && SameBackground(s, t)
    ensures Recorded(t.reports, t.writes) && (t.completed == s.completed ==> AllKnown(t))
    ensures t.completed != s.completed ==>
              forall id :: Configured(t.config, id) ==> Known(t.roster, t.base, t.writes, t.eventsByAccount, id)
  {
    assert s.reports[slot] + [report] == [report];
    RecordedAfterReport(s.reports, s.writes, slot, report);
    var events := EventsAfter(s.roster, s.eventsByAccount, slot, report);
    forall id ensures Known(t.roster, t.base, t.writes, events, id) {
      KnownAfterReport(s.roster, s.base, s.writes, s.eventsByAccount, slot, report, id);
    }
    if t.completed != s.completed {
      forall id | Configured(t.config, id) ensures Known(t.roster, t.base, t.writes, t.eventsByAccount, id) {
        assert Known(t.roster, t.base, t.writes, events, id);
      }
    }
  }

  lemma DeliveryKeepsLedger(s: State, callback: Callback, reply: Reply, t: State)
    requires Inv(s) && s.refreshing && Ledger(s) && Step(s, Deliver(callback, reply), t)
    ensures Ledger(t) && (!t.refreshing ==> Concluded(t))
  {
    var core := Delivered(s, callback, reply);
    DeliveryKeepsInv(s, callback, reply);
    InvIgnoresSnapshot(core, t);
    var done, slot, report := DeliveryCase(s, callback, reply);
    if done {
      HeardKeepsLedger(s, slot, report, core);
      EndsAreConcluded(s, core, t);
    } else {
      QuietBackground(s, core);
      SameLedger(s, t);
    }
  }

  lemma SameLedger(s: State, t: State)
    requires Recorded(s.reports, s.writes) && AllKnown(s) && SameBackground(s, t)
    requires t.reports == s.reports && t.writes == s.writes && t.eventsByAccount == s.eventsByAccount
    ensures Recorded(t.reports, t.writes) && AllKnown(t)
  {
    forall id ensures Known(t.roster, t.base, t.writes, t.eventsByAccount, id) {
      assert Known(s.roster, s.base, s.writes, s.eventsByAccount, id);
    }
  }

  lemma EndsAreConcluded(s: State, core: State, t: State)
    requires Inv(t) && SnapshotFollows(s, core, t) && Recorded(core.reports, core.writes)
    requires core.completed == s.completed ==> AllKnown(core)
    requires core.completed != s.completed ==>
      !core.refreshing && (exists events :: core.eventsByAccount == DropUnconfigured(events, core.config))
      && forall id :: Configured(core.config, id) ==>
           Known(core.roster, core.base, core.writes, core.eventsByAccount, id)
    requires core.completed == s.completed ==> core.refreshing
    ensures Ledger(t) && (!t.refreshing ==> Concluded(t))
  {
    if core.completed == s.completed {
      SameLedger(core, t);
    } else {
      NoneUnreported(t.reports, |t.reports|);
      forall id | Configured(t.config, id) ensures Known(t.roster, t.base, t.writes, t.eventsByAccount, id) {
        assert Known(core.roster, core.base, core.writes, core.eventsByAccount, id);
      }
    }
  }

  lemma RecordedAfterOther(reports: seq<seq<Report>>, writes: seq<Write>, write: Write)
    requires Recorded(reports, writes) && !write.Reported?
    ensures Recorded(reports, writes + [write])
  {
    forall k | 0 <= k < |writes| + 1 ensures IsReport(reports, (writes + [write])[k]) {
      assert k < |writes| ==> IsReport(reports, writes[k]);
    }
    forall slot | 0 <= slot < |reports| ensures HasWrite(reports, writes + [write], slot) {
      assert HasWrite(reports, writes, slot);
    }
  }

  lemma WriteForAllKeepsLedger(s: State, write: Write, t: State)
    requires Ledger(s) && !write.Reported? && SameRefresh(s, t) && t.writes == s.writes + [write]
    requires forall id :: Get(t.eventsByAccount, id) == Held(write, id)
    ensures Ledger(t)
  {
    if s.refreshing {
      RecordedAfterOther(s.reports, s.writes, write);
      forall id ensures Known(t.roster, t.base, t.writes, t.eventsByAccount, id) {
        LeftAfter(s.roster, s.base, s.writes, write, id);
      }
    }
  }

  predicate SameRefresh(s: State, t: State) {
    t.roster == s.roster && t.base == s.base && t.reports == s.reports && t.refreshing == s.refreshing
  }

  lemma ReloadKeepsLedger(s: State, enabled: bool, config: seq<Account>, settings: string)
    requires Ledger(s)
    ensures Ledger(Reload(s, enabled, config, settings))
  {
    var t := Reload(s, enabled, config, settings);
    if t.writes == s.writes + [Wiped] {
      WriteForAllKeepsLedger(s, Wiped, t);
    } else if s.refreshing {
      forall id ensures Known(t.roster, t.base, t.writes, t.eventsByAccount, id) {
        assert Known(s.roster, s.base, s.writes, s.eventsByAccount, id);
      }
    }
  }

  lemma StartOpensLedger(s: State)
    requires Ledger(s)
    ensures Ledger(StartRefresh(s))
  {
    if s.config != [] {
      var t := StartRefresh(s);
      forall id ensures Known(t.roster, t.base, t.writes, t.eventsByAccount, id) {
      }
    }
  }

  lemma StepKeepsLedger(s: State, action: Action, t: State)
    requires Inv(s) && Ledger(s) && Step(s, action, t)
    ensures Ledger(t) && (s.refreshing && !t.refreshing ==> Concluded(t))
  {
    match action
    case Tick(due) => StartOpensLedger(s);
    case Deliver(callback, reply) =>
      StillRefreshing(s, callback);
      DeliveryKeepsLedger(s, callback, reply, t);
    case ConfigReload(enabled, config, settings) => ReloadKeepsLedger(s, enabled, config, settings);
    case CacheLoad(cached) => WriteForAllKeepsLedger(s, Loaded(DropUnconfigured(cached, s.config)), t);
  }

  lemma StepOf(states: seq<State>, actions: seq<Action>, i: nat)
    requires IsRun(states, actions) && i < |actions|
    ensures Inv(states[i]) && Inv(states[i + 1]) && Step(states[i], actions[i], states[i + 1])
  {
    RunKeepsInv(states, actions, i);
    RunKeepsInv(states, actions, i + 1);
    assert StepAt(states, actions, i);
  }

  lemma {:induction false} RunKeepsLedger(states: seq<State>, actions: seq<Action>, i: nat)
    requires IsRun(states, actions) && i < |states|
    ensures Ledger(states[i])
  {
    if i > 0 {
      RunKeepsLedger(states, actions, i - 1);
      StepOf(states, actions, i - 1);
      StepKeepsLedger(states[i - 1], actions[i - 1], states[i]);
    }
  }

  /** Any run from any idle state, any interleaving of callbacks, reloads, disablings and cache loads: the
      step that ends a refresh concludes it. */
  lemma RefreshConcludes(states: seq<State>, actions: seq<Action>, i: nat)
    requires IsRun(states, actions) && i < |actions|
    requires states[i].refreshing && !states[i + 1].refreshing
    ensures Concluded(states[i + 1]) && states[i + 1].completed == states[i].completed + 1
  {
    StepOf(states, actions, i);
    RunKeepsLedger(states, actions, i);
    StepKeepsLedger(states[i], actions[i], states[i + 1]);
    EndIsDelivery(states[i], actions[i], states[i + 1]);
  }

  /** A tick starts a refresh if and only if one is due, calendars are enabled, none is running and there is an
      account; otherwise it does nothing. */
  lemma StartsIff(s: State, due: bool, t: State)
    requires Step(s, Tick(due), t)
    ensures t.started == s.started + 1 <==> due && s.enabled && !s.refreshing && s.config != []
    ensures t.started != s.started + 1 ==> t == s
    ensures t.started == s.started + 1 ==>
              t.refreshing && t.roster == s.config && t.pendingAccounts == |s.config| &&
                t.eventsByAccount == s.eventsByAccount
  {
  }

  // ---- whose events an account shows ----

  lemma ReportsOfSlot(s: State, slot: nat, k: nat)
    requires Recorded(s.reports, s.writes) && DistinctIds(s.roster) && slot < |s.roster| && k < |s.writes|
    ensures ReportsFor(s.roster, s.writes[k], s.roster[slot].id) <==>
            s.writes[k].Reported? && s.writes[k].slot == slot && slot < |s.reports|
  {
    assert IsReport(s.reports, s.writes[k]);
  }

  /** At the end of a refresh a configured account that succeeded shows its own report unless a cache load
      or a wipe came after it, and then what the last of these left. */
  lemma SuccessShows(s: State, slot: nat) returns (k: nat)
    requires Concluded(s) && DistinctIds(s.roster) && slot < |s.roster| && Configured(s.config, s.roster[slot].id)
    requires s.reports[slot][0].ok
    ensures k < |s.writes| && s.writes[k] == Reported(slot, s.reports[slot][0].events)
    ensures Get(s.eventsByAccount, s.roster[slot].id) ==
            if LastForAll(s.writes, |s.writes|) <= k then Some(s.reports[slot][0].events)
            else Ground(s.base, s.writes, s.roster[slot].id)
  {
    var id := s.roster[slot].id;
    assert HasWrite(s.reports, s.writes, slot);
    k :| 0 <= k < |s.writes| && s.writes[k] == Reported(slot, s.reports[slot][0].events);
    ReportsOfSlot(s, slot, k);
    forall j | 0 <= j < |s.writes| && j != k ensures !ReportsFor(s.roster, s.writes[j], id) {
      ReportsOfSlot(s, slot, j);
    }
    if LastForAll(s.writes, |s.writes|) <= k {
      ReportStands(s.roster, s.base, s.writes, id, k, |s.writes|);
    } else {
      GroundStands(s.roster, s.base, s.writes, id, |s.writes|);
    }
  }

  /** An account that failed shows what the last cache load or wipe of the refresh left, or else what it
      had before. */
  lemma FailureShows(s: State, slot: nat)
    requires Concluded(s) && DistinctIds(s.roster) && slot < |s.roster| && Configured(s.config, s.roster[slot].id)
    requires !s.reports[slot][0].ok
    ensures Get(s.eventsByAccount, s.roster[slot].id) == Ground(s.base, s.writes, s.roster[slot].id)
  {
    forall k | 0 <= k < |s.writes| ensures !ReportsFor(s.roster, s.writes[k], s.roster[slot].id) {
      ReportsOfSlot(s, slot, k);
      assert IsReport(s.reports, s.writes[k]);
    }
    GroundStands(s.roster, s.base, s.writes, s.roster[slot].id, |s.writes|);
  }

  /** An account shows its own report exactly if no cache load or wipe came after it, or the last that did
      left the very same events. */
  lemma OwnReportIff(s: State, slot: nat) returns (k: nat)
    requires Concluded(s) && DistinctIds(s.roster) && slot < |s.roster| && Configured(s.config, s.roster[slot].id)
    requires s.reports[slot][0].ok
    ensures k < |s.writes| && s.writes[k] == Reported(slot, s.reports[slot][0].events)
    ensures var own, last := Some(s.reports[slot][0].events), LastForAll(s.writes, |s.writes|);
      Get(s.eventsByAccount, s.roster[slot].id) == own <==>
      last <= k || Held(s.writes[last - 1], s.roster[slot].id) == own
  {
    k := SuccessShows(s, slot);
  }

  // ---- disabling ----

  /** A reload that changes anything and leaves calendars disabled throws away events and snapshot. */
  predicate Wipes(s: State, action: Action) {
    action.ConfigReload? && !action.enabled && !SameConfig(s, action.enabled, action.config, action.settings)
  }

  predicate LoadsEvents(action: Action) { action.CacheLoad? && action.cached != map[] }

  lemma WipeStep(s: State, action: Action, t: State)
    requires Step(s, action, t) && Wipes(s, action)
    ensures !t.snapshot.valid && !t.enabled && t.refreshing == s.refreshing
  {
  }

  lemma DisabledDelivery(s: State, callback: Callback, reply: Reply, t: State)
    requires Inv(s) && Inv(t) && Step(s, Deliver(callback, reply), t)
    ensures s.refreshing && t.enabled == s.enabled
    ensures t.snapshot.valid <==> s.snapshot.valid || !t.refreshing
  {
    StillRefreshing(s, callback);
    DeliveredParts(s, callback, reply);
    var done, slot, report := DeliveryCase(s, callback, reply);
  }

  /** While disabled a refresh can end but not start, and only its end or a load brings a snapshot back. */
  lemma DisabledStep(s: State, action: Action, t: State)
    requires Inv(s) && Inv(t) && Step(s, action, t) && !s.enabled && !t.enabled && !Wipes(s, action)
    ensures t.refreshing ==> s.refreshing
    ensures t.snapshot.valid <==> s.snapshot.valid || (s.refreshing && !t.refreshing) || LoadsEvents(action)
  {
    match action
    case Tick(due) =>
    case Deliver(callback, reply) => DisabledDelivery(s, callback, reply, t);
    case ConfigReload(enabled, config, settings) =>
    case CacheLoad(cached) =>
  }

  predicate LoadedBetween(actions: seq<Action>, from: nat, to: nat) {
    exists j :: from <= j < to && j < |actions| && LoadsEvents(actions[j])
  }

  lemma LoadedSplit(actions: seq<Action>, from: nat, to: nat)
    requires from < to <= |actions|
    ensures LoadedBetween(actions, from, to) <==> LoadedBetween(actions, from, to - 1) || LoadsEvents(actions[to - 1])
  {
  }

  predicate Disabled(states: seq<State>, j: nat)
    requires j < |states|
  {
    !states[j].enabled
  }

  /** Calendars are disabled from state `a` to state `i`. */
  predicate DisabledFrom(states: seq<State>, a: nat, i: nat) {
    a <= i < |states| && forall j :: a <= j <= i ==> Disabled(states, j)
  }

  /** The state the last reload between `a` and `i` that wiped has led to, or `a`. */
  function LastWipe(states: seq<State>, actions: seq<Action>, a: nat, i: nat): (w: nat)
    requires a <= i < |states| == |actions| + 1
    ensures a <= w <= i
  {
    if i == a then a
    else if Wipes(states[i - 1], actions[i - 1]) then i
    else LastWipe(states, actions, a, i - 1)
  }

  /** What the snapshot's validity comes from, once calendars have been disabled from `a` to `i`. */
  predicate ValidSince(states: seq<State>, actions: seq<Action>, a: nat, i: nat)
    requires a <= i < |states| == |actions| + 1
  {
    var w := LastWipe(states, actions, a, i);
    || (w == a && states[a].snapshot.valid)
    || (states[w].refreshing && !states[i].refreshing)
    || LoadedBetween(actions, w, i)
  }

  lemma WipeEndsValidity(states: seq<State>, actions: seq<Action>, a: nat, i: nat)
    requires a < i < |states| == |actions| + 1 && Wipes(states[i - 1], actions[i - 1])
    ensures LastWipe(states, actions, a, i) == i && !ValidSince(states, actions, a, i)
  {
  }

  lemma ValiditySteps(states: seq<State>, actions: seq<Action>, a: nat, i: nat)
    requires a < i < |states| == |actions| + 1 && !Wipes(states[i - 1], actions[i - 1])
    requires var w := LastWipe(states, actions, a, i - 1); states[i - 1].refreshing ==> states[w].refreshing
    requires states[i].refreshing ==> states[i - 1].refreshing
    ensures ValidSince(states, actions, a, i) <==>
              || ValidSince(states, actions, a, i - 1) || (states[i - 1].refreshing && !states[i].refreshing)
              || LoadsEvents(actions[i - 1])
  {
    LoadedSplit(actions, LastWipe(states, actions, a, i - 1), i);
  }

  lemma DisabledStepAt(states: seq<State>, actions: seq<Action>, i: nat)
    requires IsRun(states, actions) && i < |actions| && Disabled(states, i) && Disabled(states, i + 1)
    ensures var s, action, t := states[i], actions[i], states[i + 1];
      if Wipes(s, action) then !t.snapshot.valid
      else
        && (t.refreshing ==> s.refreshing)
        && (t.snapshot.valid <==> s.snapshot.valid || (s.refreshing && !t.refreshing) || LoadsEvents(action))
  {
    StepOf(states, actions, i);
    if Wipes(states[i], actions[i]) {
      WipeStep(states[i], actions[i], states[i + 1]);
    } else {
      DisabledStep(states[i], actions[i], states[i + 1]);
    }
  }

  /** A service that is disabled holds a valid snapshot exactly if, since a reload last wiped it, the refresh
      then running has ended or a cache with events has been loaded; without such a reload, also if it
      held one at first. */
  lemma {:induction false} DisabledButValidIff(states: seq<State>, actions: seq<Action>, a: nat, i: nat)
    requires IsRun(states, actions) && DisabledFrom(states, a, i)
    ensures states[i].snapshot.valid <==> ValidSince(states, actions, a, i)
    ensures states[i].refreshing ==> states[LastWipe(states, actions, a, i)].refreshing
  {
    if a < i {
      DisabledButValidIff(states, actions, a, i - 1);
      assert Disabled(states, i - 1) && Disabled(states, i);
      DisabledStepAt(states, actions, i - 1);
      if Wipes(states[i - 1], actions[i - 1]) {
        WipeEndsValidity(states, actions, a, i);
      } else {
        ValiditySteps(states, actions, a, i);
      }
    }
  }

  // ---- two runs ----

  lemma AwaitStep(s: State, callback: Callback, reply: Reply, next: Callback)
    requires callback in s.outstanding && Addressed(|s.roster|, s.contexts, callback) && |s.roster| == |s.reports|
    requires React(s.roster, s.contexts, callback, reply) == Next(next)
    ensures Step(s, Deliver(callback, reply), s.(outstanding := s.outstanding - multiset{callback} + multiset{next}))
  {
  }

  function Telling(s: State, callback: Callback, slot: nat, report: Report): State
    requires slot < |s.roster| == |s.reports|
  {
    Told(s.(outstanding := s.outstanding - multiset{callback}), slot, report)
  }

  lemma ReportStep(s: State, callback: Callback, reply: Reply, slot: nat, report: Report)
    requires callback in s.outstanding && Addressed(|s.roster|, s.contexts, callback) && |s.roster| == |s.reports|
    requires slot < |s.roster| && React(s.roster, s.contexts, callback, reply) == Done(slot, report)
    requires s.pendingAccounts > 1
    ensures Step(s, Deliver(callback, reply), Telling(s, callback, slot, report))
  {
  }

  /** The state after the report that ends a refresh, when every account with events is configured. */
  function Ending(s: State, callback: Callback, slot: nat, report: Report, snapshot: CalendarSnapshot): State
    requires slot < |s.roster| == |s.reports|
  {
    Telling(s, callback, slot, report).(refreshing := false, completed := s.completed + 1, snapshot := snapshot)
  }

  lemma LastReportStep(s: State, callback: Callback, reply: Reply, slot: nat, report: Report,
                       snapshot: CalendarSnapshot)
    requires callback in s.outstanding && Addressed(|s.roster|, s.contexts, callback) && |s.roster| == |s.reports|
    requires slot < |s.roster| && React(s.roster, s.contexts, callback, reply) == Done(slot, report)
    requires s.pendingAccounts == 1
    requires var told := Told(s, slot, report).eventsByAccount;
      DropUnconfigured(told, s.config) == told && Rebuilt(told, snapshot)
    ensures Step(s, Deliver(callback, reply), Ending(s, callback, slot, report, snapshot))
  {
    var taken := s.(outstanding := s.outstanding - multiset{callback});
    assert Told(taken, slot, report).eventsByAccount == Told(s, slot, report).eventsByAccount;
    assert Delivered(s, callback, reply) == AccountDone(taken, slot, report);
  }

  lemma ExtendRun(states: seq<State>, actions: seq<Action>, action: Action, t: State)
    returns (longer: seq<State>, taken: seq<Action>)
    requires IsRun(states, actions) && Step(states[|actions|], action, t)
    ensures longer == states + [t] && taken == actions + [action] && IsRun(longer, taken)
  {
    longer, taken := states + [t], actions + [action];
    forall i | 0 <= i < |taken| ensures StepAt(longer, taken, i) {
      if i < |actions| {
        assert StepAt(states, actions, i);
      }
    }
  }

  const TWO := [Account("a", Vdir), Account("b", Ics(true))]

  predicate BothWait(s: State) {
    && s.refreshing && s.roster == TWO && s.pendingAccounts == 2 && s.reports == [[], []] && s.contexts == []
    && s.outstanding == multiset{VdirResult(0), IcsResponse(1)}
  }

  function Answer(ok: bool, events: seq<CalendarEvent>): Reply { Reply(ok, false, 0, events) }

  lemma TwoBegins()
    ensures Begins(2) == multiset{Begin(0), Begin(1)}
  {
    assert Begins(1) == multiset{Begin(0)};
  }

  lemma StartTwo(s: State) returns (states: seq<State>, actions: seq<Action>)
    requires Inv(s) && !s.refreshing && s.enabled && s.config == TWO && s.outstanding == multiset{}
    ensures IsRun(states, actions) && actions == [Tick(true)] && states[0] == s
    ensures states[1] == Enrolled(s, multiset{Begin(0), Begin(1)})
  {
    TwoBegins();
    states, actions := [s, StartRefresh(s)], [Tick(true)];
  }

  lemma FirstBegins(s: State) returns (t: State)
    requires s.roster == TWO && |s.reports| == 2 && s.outstanding == multiset{Begin(0), Begin(1)}
    ensures Step(s, Deliver(Begin(0), Answer(true, [])), t)
    ensures t == s.(outstanding := multiset{VdirResult(0), Begin(1)})
  {
    AwaitStep(s, Begin(0), Answer(true, []), VdirResult(0));
    t := s.(outstanding := s.outstanding - multiset{Begin(0)} + multiset{VdirResult(0)});
    assert t.outstanding == multiset{VdirResult(0), Begin(1)};
  }

  lemma SecondBegins(s: State) returns (t: State)
    requires s.roster == TWO && |s.reports| == 2 && s.outstanding == multiset{VdirResult(0), Begin(1)}
    ensures Step(s, Deliver(Begin(1), Answer(true, [])), t)
    ensures t == s.(outstanding := multiset{VdirResult(0), IcsResponse(1)})
  {
    AwaitStep(s, Begin(1), Answer(true, []), IcsResponse(1));
    t := s.(outstanding := s.outstanding - multiset{Begin(1)} + multiset{IcsResponse(1)});
    assert t.outstanding == multiset{VdirResult(0), IcsResponse(1)};
  }

  /** A local calendar and a subscribed one begin, and wait for their answers. */
  lemma BothBegin(s: State) returns (states: seq<State>, actions: seq<Action>)
    requires Inv(s) && !s.refreshing && s.enabled && s.config == TWO && s.outstanding == multiset{}
    ensures IsRun(states, actions) && |actions| == 3 && states[0] == s && BothWait(states[3])
    ensures states[3].config == TWO && states[3].enabled && states[3].completed == s.completed
  {
    states, actions := StartTwo(s);
    var one := FirstBegins(states[1]);
    var both := SecondBegins(one);
    states, actions := ExtendRun(states, actions, Deliver(Begin(0), Answer(true, [])), one);
    states, actions := ExtendRun(states, actions, Deliver(Begin(1), Answer(true, [])), both);
  }

  lemma FirstReports(s: State, events: seq<CalendarEvent>) returns (t: State)
    requires BothWait(s)
    ensures Step(s, Deliver(VdirResult(0), Answer(true, events)), t)
    ensures t == s.(outstanding := multiset{IcsResponse(1)}, pendingAccounts := 1,
                    reports := [[Report(true, events)], []],
                    eventsByAccount := s.eventsByAccount["a" := events], writes := s.writes + [Reported(0, events)])
  {
    ReportStep(s, VdirResult(0), Answer(true, events), 0, Report(true, events));
    t := Telling(s, VdirResult(0), 0, Report(true, events));
    assert t.outstanding == multiset{IcsResponse(1)};
    assert s.reports[0] + [Report(true, events)] == [Report(true, events)];
  }

  lemma OneAccount(event: CalendarEvent, config: seq<Account>)
    requires config == TWO
    ensures DropUnconfigured(map["a" := [event]], config) == map["a" := [event]]
    ensures Rebuilt(map["a" := [event]], CalendarSnapshot(true, [event]))
  {
    assert config[0].id == "a";
    MergedSplit(map["a" := [event]], "a");
    assert map["a" := [event]] - {"a"} == map[];
  }

  /** The subscribed calendar fails, which ends the refresh with the events the other one then has. */
  lemma SecondFails(s: State, event: CalendarEvent) returns (t: State)
    requires s.roster == s.config == TWO && s.outstanding == multiset{IcsResponse(1)} && s.pendingAccounts == 1
    requires |s.reports| == 2 && s.reports[1] == [] && s.eventsByAccount == map["a" := [event]]
    ensures Step(s, Deliver(IcsResponse(1), Answer(false, [])), t)
    ensures !t.refreshing && t.enabled == s.enabled && t.reports == [s.reports[0], [FAILED]]
    ensures t.eventsByAccount == s.eventsByAccount && t.snapshot == CalendarSnapshot(true, [event])
  {
    OneAccount(event, s.config);
    var shown := CalendarSnapshot(true, [event]);
    LastReportStep(s, IcsResponse(1), Answer(false, []), 1, FAILED, shown);
    t := Ending(s, IcsResponse(1), 1, FAILED, shown);
    assert s.reports[1] + [FAILED] == [FAILED];
    assert t.reports == s.reports[1 := [FAILED]];
  }

  lemma CacheComes(s: State, event: CalendarEvent) returns (t: State)
    requires s.config == TWO
    ensures Step(s, CacheLoad(map["a" := [event]]), t)
    ensures t == Installed(s, map["a" := [event]]).(snapshot := CalendarSnapshot(true, [event]))
    ensures t.eventsByAccount == map["a" := [event]]
  {
    OneAccount(event, s.config);
    t := Installed(s, map["a" := [event]]).(snapshot := CalendarSnapshot(true, [event]));
  }

  /** One account reports, the key becomes ready and the cache is loaded, the other account fails: the
      refresh ends with the first showing its cached event, its own report lost. */
  lemma ReportIsDiscarded(s: State, report: seq<CalendarEvent>, cached: CalendarEvent)
    returns (states: seq<State>, actions: seq<Action>)
    requires Inv(s) && !s.refreshing && s.enabled && s.config == TWO && s.outstanding == multiset{}
    ensures IsRun(states, actions) && |actions| == 6 && states[0] == s && !states[6].refreshing
    ensures states[6].reports == [[Report(true, report)], [FAILED]]
    ensures Get(states[6].eventsByAccount, "a") == Some([cached])
  {
    states, actions := BothBegin(s);
    var heard := FirstReports(states[3], report);
    var loaded := CacheComes(heard, cached);
    var ended := SecondFails(loaded, cached);
    states, actions := ExtendRun(states, actions, Deliver(VdirResult(0), Answer(true, report)), heard);
    states, actions := ExtendRun(states, actions, CacheLoad(map["a" := [cached]]), loaded);
    states, actions := ExtendRun(states, actions, Deliver(IcsResponse(1), Answer(false, [])), ended);
  }

  lemma Disable(s: State) returns (states: seq<State>, actions: seq<Action>)
    requires Inv(s) && !s.refreshing && s.enabled && s.config == TWO && s.outstanding == multiset{}
    ensures IsRun(states, actions) && |actions| == 4 && states[0] == s && Wipes(states[3], actions[3])
    ensures BothWait(states[4]) && !states[4].enabled && states[4].config == TWO && states[4].eventsByAccount == map[]
  {
    states, actions := BothBegin(s);
    states, actions := ExtendRun(states, actions, ConfigReload(false, TWO, states[3].settings),
                                 Reload(states[3], false, TWO, states[3].settings));
  }

  /** Calendars are disabled while a refresh runs: when it ends, the disabled service shows a snapshot. */
  lemma DisabledServiceShowsEvents(s: State, event: CalendarEvent) returns (states: seq<State>, actions: seq<Action>)
    requires Inv(s) && !s.refreshing && s.enabled && s.config == TWO && s.outstanding == multiset{}
    ensures IsRun(states, actions) && |actions| == 6 && states[0] == s && Wipes(states[3], actions[3])
    ensures !states[6].enabled && states[6].snapshot == CalendarSnapshot(true, [event])
  {
    states, actions := Disable(s);
    var heard := FirstReports(states[4], [event]);
    var ended := SecondFails(heard, event);
    states, actions := ExtendRun(states, actions, Deliver(VdirResult(0), Answer(true, [event])), heard);
    states, actions := ExtendRun(states, actions, Deliver(IcsResponse(1), Answer(false, [])), ended);
  }
}
