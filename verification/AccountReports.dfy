/** src/calendar/calendar_service.cpp: what an account reports, in terms of all that its operations have answered. */
module AccountReports {
  import opened CalendarTypes
  import opened RefreshProtocol
  import opened RefreshResults

  // ---- what an account has heard ----

  predicate Concerns(s: State, action: Action, slot: nat) {
    action.Deliver? &&
    if action.callback.Collection? then
      action.callback.ctx < |s.contexts| && s.contexts[action.callback.ctx].slot == slot
    else action.callback.slot == slot
  }

  /** The answers delivered to one account from step `from` up to state `to`, in order. */
  function Heard(states: seq<State>, actions: seq<Action>, slot: nat, from: nat, to: nat): seq<Reply>
    requires |states| == |actions| + 1 && to < |states|
  {
    if to <= from then []
    else
      Heard(states, actions, slot, from, to - 1)
      + if Concerns(states[to - 1], actions[to - 1], slot) then [actions[to - 1].reply] else []
  }

  // ---- what it reports ----

  /** The events of all successful answers, one after the other. */
  function AllEvents(replies: seq<Reply>): seq<CalendarEvent> {
    if replies == [] then []
    else
      AllEvents(replies[..|replies| - 1])
      + if replies[|replies| - 1].ok then replies[|replies| - 1].events else []
  }

  predicate AnySucceeded(replies: seq<Reply>) { exists i :: 0 <= i < |replies| && replies[i].ok }

  predicate Fails(report: Report) { !report.ok && report.events == [] }

  /** A token is looked up, refreshed and stored, and the events are fetched with it: the first step that fails
      fails the account, and an unauthorized fetch is not retried. */
  predicate TokenAnswers(h: seq<Reply>, report: Report) {
    |h| >= 1 &&
    if !h[0].ok then |h| == 1 && Fails(report)
    else
      |h| >= 2 &&
      if !h[1].ok then |h| == 2 && Fails(report)
      else
        |h| >= 3 &&
        if !h[2].ok then |h| == 3 && Fails(report)
        else |h| == 4 && report == Report(h[3].ok && !h[3].unauthorized, h[3].events)
  }

  /** With a session the events are fetched at once; only an unauthorized answer leads to a token. */
  predicate GoogleAnswers(h: seq<Reply>, report: Report) {
    |h| >= 1 &&
    if !h[0].ok then TokenAnswers(h[1..], report)
    else
      |h| >= 2 &&
      if h[1].unauthorized then TokenAnswers(h[2..], report)
      else |h| == 2 && report == Report(h[1].ok, h[1].events)
  }

  /** Password and discovery come first; then every selected collection answers once, and the account reports
      the events of those that succeeded, if any did. */
  predicate CalDavAnswers(h: seq<Reply>, report: Report) {
    |h| >= 2 &&
    if !h[1].ok then |h| == 2 && Fails(report)
    else
      |h| >= 3 &&
      if !h[2].ok || h[2].selected == 0 then |h| == 3 && Fails(report)
      else |h| == 3 + h[2].selected && report == Report(AnySucceeded(h[3..]), AllEvents(h[3..]))
  }

  /** What an account of some kind reports once it has heard these answers, the first of which says how its
      beginning went. */
  predicate Answers(kind: AccountKind, h: seq<Reply>, report: Report) {
    match kind
    case CalDav(configured) => if configured then CalDavAnswers(h, report) else |h| == 1 && Fails(report)
    case Google => GoogleAnswers(h, report)
    case Ics(hasUrl) =>
      if hasUrl then |h| == 2 && report == (if h[1].ok then Report(true, h[1].events) else Report(false, []))
      else |h| == 1 && Fails(report)
    case Vdir =>
      |h| >= 1 && if h[0].ok then |h| == 2 && report == Report(h[1].ok, h[1].events) else |h| == 1 && Fails(report)
    case Unknown => |h| == 1 && Fails(report)
  }

  // ---- what it waits for ----

  predicate AwaitsToken(h: seq<Reply>, c: Callback, slot: nat) {
    || (h == [] && c == TokenLookup(slot))
    || (|h| == 1 && h[0].ok && c == TokenRefresh(slot))
    || (|h| == 2 && h[0].ok && h[1].ok && c == TokenStore(slot))
    || (|h| == 3 && h[0].ok && h[1].ok && h[2].ok && c == GoogleFetch(slot, false))
  }

  predicate AwaitsGoogle(h: seq<Reply>, c: Callback, slot: nat) {
    |h| >= 1 &&
    if !h[0].ok then AwaitsToken(h[1..], c, slot)
    else if |h| == 1 then c == GoogleFetch(slot, true)
    else h[1].unauthorized && AwaitsToken(h[2..], c, slot)
  }

  predicate Gathers(h: seq<Reply>, slot: nat, context: FetchContext)
    requires |h| >= 3
  {
    context.slot == slot && context.pending > 0 && context.pending + |h| == 3 + h[2].selected
    && context.anyOk == AnySucceeded(h[3..]) && context.events == AllEvents(h[3..])
  }

  predicate AwaitsCalDav(h: seq<Reply>, c: Callback, slot: nat, contexts: seq<FetchContext>) {
    || (|h| == 1 && c == Password(slot))
    || (|h| == 2 && h[1].ok && c == Discovery(slot))
    || (|h| >= 3 && h[1].ok && h[2].ok && h[2].selected > 0
        && c.Collection? && c.ctx < |contexts| && Gathers(h, slot, contexts[c.ctx]))
  }

  predicate Awaits(kind: AccountKind, h: seq<Reply>, c: Callback, slot: nat, contexts: seq<FetchContext>) {
    if h == [] then c == Begin(slot)
    else
      match kind
      case CalDav(configured) => configured && AwaitsCalDav(h, c, slot, contexts)
      case Google => AwaitsGoogle(h, c, slot)
      case Ics(hasUrl) => hasUrl && |h| == 1 && c == IcsResponse(slot)
      case Vdir => |h| == 1 && h[0].ok && c == VdirResult(slot)
      case Unknown => false
  }

  // ---- one answer ----

  lemma BeginAnswer(kind: AccountKind, reply: Reply, slot: nat, contexts: seq<FetchContext>)
    ensures match BeginAccount(kind, slot, reply.ok)
      case Next(next) => Awaits(kind, [reply], next, slot, contexts)
      case Done(at, report) => at == slot && Answers(kind, [reply], report)
      case FanOut(_, _) => false
      case Join(_, _) => false
  {
  }

  /** What a handler makes of the next answer of its account. */
  predicate Continues(kind: AccountKind, h: seq<Reply>, callback: Callback, slot: nat, contexts: seq<FetchContext>,
                      reaction: Reaction)
  {
    match reaction
    case Next(next) => Awaits(kind, h, next, slot, contexts)
    case FanOut(at, count) =>
      at == slot && Awaits(kind, h, Collection(|contexts|), slot, contexts + [FetchContext(slot, count, false, [])])
    case Join(ctx, context) =>
      ctx < |contexts| && callback == Collection(ctx) && context.slot == slot
      && if context.pending > 0 then Awaits(kind, h, callback, slot, contexts[ctx := context])
         else Answers(kind, h, Report(context.anyOk, context.events))
    case Done(at, report) => at == slot && Answers(kind, h, report)
  }

  lemma TokenAnswer(h: seq<Reply>, c: Callback, slot: nat, reply: Reply)
    requires AwaitsToken(h, c, slot)
    ensures c.TokenLookup? ==> if reply.ok then AwaitsToken(h + [reply], TokenRefresh(slot), slot)
                               else TokenAnswers(h + [reply], FAILED)
    ensures c.TokenRefresh? ==> if reply.ok then AwaitsToken(h + [reply], TokenStore(slot), slot)
                                else TokenAnswers(h + [reply], FAILED)
    ensures c.TokenStore? ==> if reply.ok then AwaitsToken(h + [reply], GoogleFetch(slot, false), slot)
                              else TokenAnswers(h + [reply], FAILED)
    ensures c.GoogleFetch? ==>
              !c.allowRefreshRetry && TokenAnswers(h + [reply], Report(reply.ok && !reply.unauthorized, reply.events))
  {
  }

  lemma ExchangeAnswer(roster: seq<Account>, h: seq<Reply>, c: Callback, slot: nat, contexts: seq<FetchContext>,
                       reply: Reply)
    requires |h| >= 1 && !h[0].ok && AwaitsToken(h[1..], c, slot)
    requires slot < |roster| && Addressed(|roster|, contexts, c)
    ensures Continues(Google, h + [reply], c, slot, contexts, React(roster, contexts, c, reply))
  {
    assert (h + [reply])[1..] == h[1..] + [reply];
    TokenAnswer(h[1..], c, slot, reply);
  }

  lemma RetryAnswer(roster: seq<Account>, h: seq<Reply>, c: Callback, slot: nat, contexts: seq<FetchContext>,
                    reply: Reply)
    requires |h| >= 2 && h[0].ok && h[1].unauthorized && AwaitsToken(h[2..], c, slot)
    requires slot < |roster| && Addressed(|roster|, contexts, c)
    ensures Continues(Google, h + [reply], c, slot, contexts, React(roster, contexts, c, reply))
  {
    assert (h + [reply])[2..] == h[2..] + [reply];
    TokenAnswer(h[2..], c, slot, reply);
  }

  lemma GoogleAnswer(roster: seq<Account>, h: seq<Reply>, c: Callback, slot: nat, contexts: seq<FetchContext>,
                     reply: Reply)
    requires AwaitsGoogle(h, c, slot) && slot < |roster| && Addressed(|roster|, contexts, c)
    ensures Continues(Google, h + [reply], c, slot, contexts, React(roster, contexts, c, reply))
  {
    if !h[0].ok {
      ExchangeAnswer(roster, h, c, slot, contexts, reply);
    } else if |h| > 1 {
      RetryAnswer(roster, h, c, slot, contexts, reply);
    } else {
      assert (h + [reply])[2..] == [];
    }
  }

  lemma OneMoreAnswer(replies: seq<Reply>, reply: Reply)
    ensures AllEvents(replies + [reply]) == AllEvents(replies) + if reply.ok then reply.events else []
    ensures AnySucceeded(replies + [reply]) <==> AnySucceeded(replies) || reply.ok
  {
    var more := replies + [reply];
    assert more[..|replies|] == replies && more[|replies|] == reply;
    if AnySucceeded(replies) {
      var i :| 0 <= i < |replies| && replies[i].ok;
      assert more[i].ok;
    }
  }

  lemma GathersMore(h: seq<Reply>, slot: nat, context: FetchContext, reply: Reply)
    requires |h| >= 3 && Gathers(h, slot, context)
    ensures var more, joined := h + [reply], JoinCollection(context, reply);
      && joined.slot == slot && joined.pending + |more| == 3 + h[2].selected
      && joined.anyOk == AnySucceeded(more[3..]) && joined.events == AllEvents(more[3..])
  {
    assert (h + [reply])[3..] == h[3..] + [reply];
    OneMoreAnswer(h[3..], reply);
    assert AllEvents(h[3..]) + [] == AllEvents(h[3..]);
  }

  lemma StillGathers(h: seq<Reply>, slot: nat, context: FetchContext, reply: Reply)
    requires |h| >= 3 && h[1].ok && h[2].ok && h[2].selected > 0 && Gathers(h, slot, context)
    ensures var joined := JoinCollection(context, reply);
      && joined.slot == slot
      && if joined.pending > 0 then Gathers(h + [reply], slot, joined)
         else CalDavAnswers(h + [reply], Report(joined.anyOk, joined.events))
  {
    GathersMore(h, slot, context, reply);
    assert (h + [reply])[1] == h[1] && (h + [reply])[2] == h[2];
  }

  lemma CollectionAnswer(h: seq<Reply>, c: Callback, slot: nat, contexts: seq<FetchContext>, reply: Reply)
    requires |h| >= 3 && AwaitsCalDav(h, c, slot, contexts)
    ensures Continues(CalDav(true), h + [reply], c, slot, contexts, Join(c.ctx, JoinCollection(contexts[c.ctx], reply)))
  {
    var joined := JoinCollection(contexts[c.ctx], reply);
    StillGathers(h, slot, contexts[c.ctx], reply);
    if joined.pending > 0 {
      assert AwaitsCalDav(h + [reply], c, slot, contexts[c.ctx := joined]);
    }
  }

  lemma CalDavAnswer(roster: seq<Account>, h: seq<Reply>, c: Callback, slot: nat, contexts: seq<FetchContext>,
                     reply: Reply)
    requires AwaitsCalDav(h, c, slot, contexts) && slot < |roster| && Addressed(|roster|, contexts, c)
    ensures Continues(CalDav(true), h + [reply], c, slot, contexts, React(roster, contexts, c, reply))
  {
    if |h| >= 3 {
      CollectionAnswer(h, c, slot, contexts, reply);
    } else if |h| == 2 {
      assert (h + [reply])[3..] == [];
    }
  }

  lemma AnswerContinues(roster: seq<Account>, h: seq<Reply>, c: Callback, slot: nat, contexts: seq<FetchContext>,
                        reply: Reply)
    requires slot < |roster| && Awaits(roster[slot].kind, h, c, slot, contexts) && Addressed(|roster|, contexts, c)
    ensures Continues(roster[slot].kind, h + [reply], c, slot, contexts, React(roster, contexts, c, reply))
  {
    if h == [] {
      assert h + [reply] == [reply];
      BeginAnswer(roster[slot].kind, reply, slot, contexts);
    } else if roster[slot].kind.CalDav? {
      CalDavAnswer(roster, h, c, slot, contexts, reply);
    } else if roster[slot].kind.Google? {
      GoogleAnswer(roster, h, c, slot, contexts, reply);
    }
  }

  // ---- one step ----

  function ContextsAfter(contexts: seq<FetchContext>, reaction: Reaction): seq<FetchContext>
    requires reaction.Join? ==> reaction.ctx < |contexts|
  {
    match reaction
    case FanOut(slot, count) => contexts + [FetchContext(slot, count, false, [])]
    case Join(ctx, context) => contexts[ctx := context]
    case Next(_) => contexts
    case Done(_, _) => contexts
  }

  predicate Finishes(reaction: Reaction) {
    reaction.Done? || (reaction.Join? && reaction.context.pending == 0)
  }

  function ReportOf(reaction: Reaction): Report
    requires Finishes(reaction)
  {
    if reaction.Done? then reaction.report else Report(reaction.context.anyOk, reaction.context.events)
  }

  lemma AppliedWaits(s: State, callback: Callback, reaction: Reaction)
    requires Fits(s, reaction)
    ensures var t := Applied(s, callback, reaction);
      && t.contexts == ContextsAfter(s.contexts, reaction)
      && t.outstanding == OutstandingAfter(s.outstanding, |s.contexts|, callback, reaction)
  {
  }

  lemma AppliedReports(s: State, callback: Callback, reaction: Reaction)
    requires Fits(s, reaction)
    ensures Finishes(reaction) ==>
              var slot := if reaction.Done? then reaction.slot else reaction.context.slot;
              Applied(s, callback, reaction).reports == s.reports[slot := s.reports[slot] + [ReportOf(reaction)]]
    ensures !Finishes(reaction) ==> Applied(s, callback, reaction).reports == s.reports
  {
  }

  /** The account in `slot` has heard `h`: it waits for what follows that, or has reported what follows from it. */
  ghost predicate Tracked(outstanding: multiset<Callback>, contexts: seq<FetchContext>, reports: seq<seq<Report>>,
                          kind: AccountKind, h: seq<Reply>, slot: nat)
  {
    slot < |reports| &&
    if reports[slot] == [] then
      forall c :: Waits(outstanding, contexts, |reports|, slot, c) ==> Awaits(kind, h, c, slot, contexts)
    else |reports[slot]| == 1 && Answers(kind, h, reports[slot][0])
  }

  lemma OwnWait(outstanding: multiset<Callback>, contexts: seq<FetchContext>, reports: seq<seq<Report>>,
                callback: Callback,
                c: Callback)
    requires Accounted(outstanding, contexts, reports) && callback in outstanding && !callback.Collection?
    requires c in outstanding - multiset{callback}
    ensures Addressed(|reports|, contexts, c) && Owner(contexts, c) != Owner(contexts, callback)
  {
    assert c in outstanding && c != callback;
  }

  lemma NextTracked(outstanding: multiset<Callback>, contexts: seq<FetchContext>, reports: seq<seq<Report>>,
                    kind: AccountKind, h: seq<Reply>, slot: nat, callback: Callback, next: Callback)
    requires Accounted(outstanding, contexts, reports) && callback in outstanding && !callback.Collection?
    requires callback.slot == slot && slot < |reports| && reports[slot] == [] && Awaits(kind, h, next, slot, contexts)
    ensures Tracked(outstanding - multiset{callback} + multiset{next}, contexts, reports, kind, h, slot)
  {
    var after := outstanding - multiset{callback} + multiset{next};
    forall c | Waits(after, contexts, |reports|, slot, c) ensures Awaits(kind, h, c, slot, contexts) {
      if c != next {
        assert c in outstanding - multiset{callback};
        OwnWait(outstanding, contexts, reports, callback, c);
      }
    }
  }

  lemma FanOutTracked(outstanding: multiset<Callback>, contexts: seq<FetchContext>, reports: seq<seq<Report>>,
                      kind: AccountKind, h: seq<Reply>, slot: nat, callback: Callback, count: nat)
    requires Accounted(outstanding, contexts, reports) && callback in outstanding && !callback.Collection?
    requires callback.slot == slot && slot < |reports| && reports[slot] == []
    requires Awaits(kind, h, Collection(|contexts|), slot, contexts + [FetchContext(slot, count, false, [])])
    ensures Tracked((outstanding - multiset{callback})[Collection(|contexts|) := count],
                    contexts + [FetchContext(slot, count, false, [])], reports, kind, h, slot)
  {
    var grown := contexts + [FetchContext(slot, count, false, [])];
    var after := (outstanding - multiset{callback})[Collection(|contexts|) := count];
    forall c | Waits(after, grown, |reports|, slot, c) ensures Awaits(kind, h, c, slot, grown) {
      if c != Collection(|contexts|) {
        assert c in outstanding - multiset{callback};
        OwnWait(outstanding, contexts, reports, callback, c);
      }
    }
  }

  lemma JoinTracked(outstanding: multiset<Callback>, contexts: seq<FetchContext>, reports: seq<seq<Report>>,
                    kind: AccountKind, h: seq<Reply>, slot: nat, ctx: nat, context: FetchContext)
    requires Accounted(outstanding, contexts, reports) && Collection(ctx) in outstanding && ctx < |contexts|
    requires contexts[ctx].slot == slot == context.slot && slot < |reports| && reports[slot] == []
    requires Awaits(kind, h, Collection(ctx), slot, contexts[ctx := context])
    ensures Tracked(outstanding - multiset{Collection(ctx)}, contexts[ctx := context], reports, kind, h, slot)
  {
    var after, updated := outstanding - multiset{Collection(ctx)}, contexts[ctx := context];
    forall c | Waits(after, updated, |reports|, slot, c) ensures Awaits(kind, h, c, slot, updated) {
      assert c in outstanding && Owner(contexts, c) == slot;
    }
  }

  lemma OwnDelivery(s: State, callback: Callback, reply: Reply, slot: nat, h: seq<Reply>)
    requires Inv(s) && callback in s.outstanding && Owner(s.contexts, callback) == slot && slot < |s.roster|
    requires Tracked(s.outstanding, s.contexts, s.reports, s.roster[slot].kind, h, slot)
    ensures var t := Delivered(s, callback, reply);
      Tracked(t.outstanding, t.contexts, t.reports, s.roster[slot].kind, h + [reply], slot)
  {
    var kind, reaction := s.roster[slot].kind, React(s.roster, s.contexts, callback, reply);
    assert Waits(s.outstanding, s.contexts, |s.reports|, slot, callback);
    AnswerContinues(s.roster, h, callback, slot, s.contexts, reply);
    ReactionShape(s.roster, s.contexts, callback, reply);
    AppliedWaits(s, callback, reaction);
    AppliedReports(s, callback, reaction);
    if reaction.Next? {
      NextTracked(s.outstanding, s.contexts, s.reports, kind, h + [reply], slot, callback, reaction.callback);
    } else if reaction.FanOut? {
      FanOutTracked(s.outstanding, s.contexts, s.reports, kind, h + [reply], slot, callback, reaction.count);
    } else if !Finishes(reaction) {
      JoinTracked(s.outstanding, s.contexts, s.reports, kind, h + [reply], slot, reaction.ctx, reaction.context);
    }
  }

  /** What is waited for by an account does not change. */
  ghost predicate Untouched(outstanding: multiset<Callback>, contexts: seq<FetchContext>, after: multiset<Callback>,
                            updated: seq<FetchContext>, accounts: nat, slot: nat)
  {
    forall c :: Waits(after, updated, accounts, slot, c) ==>
      && Waits(outstanding, contexts, accounts, slot, c)
      && (c.Collection? ==> c.ctx < |contexts| && c.ctx < |updated| && updated[c.ctx] == contexts[c.ctx])
  }

  lemma UntouchedTracked(outstanding: multiset<Callback>, contexts: seq<FetchContext>, reports: seq<seq<Report>>,
                         kind: AccountKind, h: seq<Reply>, slot: nat, after: multiset<Callback>,
                         updated: seq<FetchContext>, told: seq<seq<Report>>)
    requires Tracked(outstanding, contexts, reports, kind, h, slot) && |told| == |reports| &&
             told[slot] == reports[slot]
    requires Untouched(outstanding, contexts, after, updated, |reports|, slot)
    ensures Tracked(after, updated, told, kind, h, slot)
  {
    if reports[slot] == [] {
      forall c | Waits(after, updated, |told|, slot, c) ensures Awaits(kind, h, c, slot, updated) {
        assert Waits(outstanding, contexts, |reports|, slot, c);
      }
    }
  }

  lemma OtherUntouched(outstanding: multiset<Callback>, contexts: seq<FetchContext>, reports: seq<seq<Report>>,
                       callback: Callback, reaction: Reaction, slot: nat)
    requires Accounted(outstanding, contexts, reports) && callback in outstanding && Owner(contexts, callback) != slot
    requires reaction.Next? ==> !reaction.callback.Collection? && reaction.callback.slot == Owner(contexts, callback)
    requires reaction.FanOut? ==> reaction.slot == Owner(contexts, callback)
    requires reaction.Join? ==> reaction.ctx < |contexts| && callback == Collection(reaction.ctx)
                                && reaction.context.slot == contexts[reaction.ctx].slot
    ensures Untouched(outstanding, contexts, OutstandingAfter(outstanding, |contexts|, callback, reaction),
                      ContextsAfter(contexts, reaction), |reports|, slot)
  {
    var after := OutstandingAfter(outstanding, |contexts|, callback, reaction);
    var updated := ContextsAfter(contexts, reaction);
    forall c | Waits(after, updated, |reports|, slot, c)
      ensures Waits(outstanding, contexts, |reports|, slot, c)
      ensures c.Collection? ==> c.ctx < |contexts| && c.ctx < |updated| && updated[c.ctx] == contexts[c.ctx]
    {
      assert c in outstanding;
    }
  }

  lemma OtherDelivery(s: State, callback: Callback, reply: Reply, slot: nat, h: seq<Reply>)
    requires Inv(s) && callback in s.outstanding && Owner(s.contexts, callback) != slot && slot < |s.roster|
    requires Tracked(s.outstanding, s.contexts, s.reports, s.roster[slot].kind, h, slot)
    ensures var t := Delivered(s, callback, reply);
      Tracked(t.outstanding, t.contexts, t.reports, s.roster[slot].kind, h, slot)
  {
    var reaction, t := React(s.roster, s.contexts, callback, reply), Delivered(s, callback, reply);
    ReactionShape(s.roster, s.contexts, callback, reply);
    AppliedWaits(s, callback, reaction);
    AppliedReports(s, callback, reaction);
    OtherUntouched(s.outstanding, s.contexts, s.reports, callback, reaction, slot);
    UntouchedTracked(s.outstanding, s.contexts, s.reports, s.roster[slot].kind, h, slot, t.outstanding, t.contexts,
                     t.reports);
  }

  // ---- whole refreshes ----

  ghost predicate TrackedIn(s: State, h: seq<Reply>, slot: nat) {
    slot < |s.roster| && Tracked(s.outstanding, s.contexts, s.reports, s.roster[slot].kind, h, slot)
  }

  function HeardNext(s: State, action: Action, slot: nat): seq<Reply> {
    if Concerns(s, action, slot) then [action.reply] else []
  }

  lemma DeliveryTracks(s: State, callback: Callback, reply: Reply, t: State, slot: nat, h: seq<Reply>)
    requires Inv(s) && Step(s, Deliver(callback, reply), t) && TrackedIn(s, h, slot)
    ensures TrackedIn(t, h + HeardNext(s, Deliver(callback, reply), slot), slot)
  {
    DeliveredParts(s, callback, reply);
    if Owner(s.contexts, callback) == slot {
      OwnDelivery(s, callback, reply, slot, h);
    } else {
      OtherDelivery(s, callback, reply, slot, h);
      assert h + [] == h;
    }
  }

  lemma StepTracks(s: State, action: Action, t: State, slot: nat, h: seq<Reply>)
    requires Inv(s) && Step(s, action, t) && s.refreshing && TrackedIn(s, h, slot)
    ensures TrackedIn(t, h + HeardNext(s, action, slot), slot) && t.roster == s.roster
  {
    if action.Deliver? {
      DeliveryTracks(s, action.callback, action.reply, t, slot, h);
      DeliveredParts(s, action.callback, action.reply);
    } else {
      assert h + [] == h;
      assert t.outstanding == s.outstanding && t.contexts == s.contexts && t.reports == s.reports;
    }
  }

  lemma StartTracks(s: State, action: Action, t: State, slot: nat)
    requires Inv(s) && Step(s, action, t) && !s.refreshing && t.refreshing && slot < |t.roster|
    ensures action.Tick? && TrackedIn(t, [], slot)
  {
    BeginsOncePerSlot(|s.config|);
    NoneUnreported(s.reports, |s.reports|);
    if action.Deliver? {
      StillRefreshing(s, action.callback);
    }
    forall c | Waits(t.outstanding, t.contexts, |t.reports|, slot, c) ensures c == Begin(slot) {
      assert c in s.outstanding || c in Begins(|s.config|);
    }
  }

  predicate Running(states: seq<State>, j: nat)
    requires j < |states|
  {
    states[j].refreshing
  }

  /** A refresh starts at step `a` and is running in every state from there to before `i`. */
  predicate RefreshFrom(states: seq<State>, actions: seq<Action>, a: nat, i: nat) {
    && |states| == |actions| + 1 && a < i < |states| && !states[a].refreshing && states[a + 1].refreshing
    && forall j :: a < j < i ==> Running(states, j)
  }

  lemma StartTracksAt(states: seq<State>, actions: seq<Action>, a: nat, slot: nat)
    requires IsRun(states, actions) && a < |actions| && !states[a].refreshing && states[a + 1].refreshing
    requires slot < |states[a + 1].roster|
    ensures TrackedIn(states[a + 1], [], slot)
  {
    StepOf(states, actions, a);
    StartTracks(states[a], actions[a], states[a + 1], slot);
  }

  lemma StepTracksAt(states: seq<State>, actions: seq<Action>, i: nat, slot: nat, h: seq<Reply>)
    requires IsRun(states, actions) && i < |actions| && states[i].refreshing && TrackedIn(states[i], h, slot)
    ensures TrackedIn(states[i + 1], h + HeardNext(states[i], actions[i], slot), slot)
    ensures states[i + 1].roster == states[i].roster
  {
    StepOf(states, actions, i);
    StepTracks(states[i], actions[i], states[i + 1], slot, h);
  }

  lemma {:induction false} RefreshTracks(states: seq<State>, actions: seq<Action>, a: nat, i: nat, slot: nat)
    requires IsRun(states, actions) && RefreshFrom(states, actions, a, i) && slot < |states[a + 1].roster|
    ensures states[i].roster == states[a + 1].roster
    ensures TrackedIn(states[i], Heard(states, actions, slot, a + 1, i), slot)
  {
    if i == a + 1 {
      StartTracksAt(states, actions, a, slot);
    } else {
      RefreshTracks(states, actions, a, i - 1, slot);
      assert Running(states, i - 1);
      StepTracksAt(states, actions, i - 1, slot, Heard(states, actions, slot, a + 1, i - 1));
    }
  }

  /** In every refresh of every run, an account that has reported has heard exactly the answers its kind asks
      for, in their order, and has reported what follows from them. */
  lemma ReportsWhatItHeard(states: seq<State>, actions: seq<Action>, a: nat, i: nat, slot: nat)
    requires IsRun(states, actions) && RefreshFrom(states, actions, a, i)
    requires slot < |states[a + 1].roster|
    ensures |states[i].reports| == |states[a + 1].roster|
    ensures states[i].reports[slot] != [] ==>
      var h := Heard(states, actions, slot, a + 1, i);
      |states[i].reports[slot]| == 1 && Answers(states[a + 1].roster[slot].kind, h, states[i].reports[slot][0])
  {
    RefreshTracks(states, actions, a, i, slot);
    RunKeepsInv(states, actions, i);
  }

  /** A CalDAV account whose discovery has selected collections has not reported before all of them have answered,
      in any order, and then reports the events of those that succeeded, one after the other as they came,
      as a success if and only if any did. */
  lemma CollectionsAreGathered(states: seq<State>, actions: seq<Action>, a: nat, i: nat, slot: nat)
    requires IsRun(states, actions) && RefreshFrom(states, actions, a, i)
    requires slot < |states[a + 1].roster| && states[a + 1].roster[slot].kind == CalDav(true)
    requires var h := Heard(states, actions, slot, a + 1, i);
      |h| >= 3 && h[1].ok && h[2].ok && h[2].selected > 0
    ensures var h, report := Heard(states, actions, slot, a + 1, i), states[i].reports;
      && slot < |report| && |h| <= 3 + h[2].selected
      && report[slot] == if |h| < 3 + h[2].selected then []
                         else [Report(AnySucceeded(h[3..]), AllEvents(h[3..]))]
  {
    RefreshTracks(states, actions, a, i, slot);
    RunKeepsInv(states, actions, i);
    var s := states[i];
    if s.reports[slot] == [] {
      var c :| Waits(s.outstanding, s.contexts, |s.reports|, slot, c);
    }
  }
}
