/** src/calendar/ical_parser.cpp: expanding a feed under a shared work budget and a stop token. */
module ICalExpansion {
  import opened Wrappers
  import opened CalendarTypes
  import opened Recurrence

  datatype Status = Complete | Cancelled | WorkBudgetExceeded | InvalidCalendar

  /** The text handed to the parser: not a calendar at all, or its VEVENTs and how many lines were unreadable. */
  datatype Feed = NotCalendar | Feed(components: seq<Component>, unparseableLines: nat)

  function Lookup(overrides: map<string, seq<int>>, uid: string): seq<int> {
    if uid in overrides then overrides[uid] else []
  }

  /** What a complete parse has of a component: of a recurring one, everything its rules and RDATEs offer. */
  ghost predicate IsComplete(c: Component, spans: seq<Span>) {
    !c.cancelled && c.validStart && c.Recurring() ==>
      exists ends: seq<nat> :: |ends| >= |c.rules| && RulesEnd(c, ends, |c.rules|) && spans == Whole(c, ends)
  }

  /** The events are those of the components taken so far. */
  ghost predicate Traced(components: seq<Component>, windowStart: int, windowEnd: int, trace: seq<seq<Span>>,
                         events: seq<CalendarEvent>) {
    |trace| <= |components| && events == Blocks(components, windowStart, windowEnd, trace, |trace|)
  }

  /** Every component taken, but for the last `cut`, is complete. */
  ghost predicate CompleteBut(components: seq<Component>, trace: seq<seq<Span>>, cut: nat) {
    |trace| <= |components| && forall i :: 0 <= i < |trace| - cut ==> IsComplete(components[i], trace[i])
  }

  lemma TraceGrows(components: seq<Component>, windowStart: int, windowEnd: int, trace: seq<seq<Span>>,
                   events: seq<CalendarEvent>,
                   taken: seq<Span>)
    requires Traced(components, windowStart, windowEnd, trace, events) && |trace| < |components|
    ensures Traced(components, windowStart, windowEnd, trace + [taken],
                   events + Block(components, windowStart, windowEnd, |trace|, taken))
  {
    BlocksAgree(components, windowStart, windowEnd, trace, trace + [taken], |trace|);
  }

  lemma CompletenessGrows(components: seq<Component>, trace: seq<seq<Span>>, taken: seq<Span>, cut: nat)
    requires |trace| < |components| && CompleteBut(components, trace, 0)
    requires cut == 0 ==> IsComplete(components[|trace|], taken)
    ensures CompleteBut(components, trace + [taken], cut)
  {
    var longer := trace + [taken];
    forall i | 0 <= i < |longer| - cut ensures IsComplete(components[i], longer[i]) {
      assert i < |trace| ==> longer[i] == trace[i] && IsComplete(components[i], trace[i]);
    }
  }

  /** The first `i` components are complete, and their events and the work spent on them accounted for. */
  ghost predicate Took(components: seq<Component>, windowStart: int, windowEnd: int, trace: seq<seq<Span>>,
                       ends: seq<seq<nat>>, events: seq<CalendarEvent>, remaining: nat, i: nat, budget: nat)
  {
    && i <= |components| && |trace| == i == |ends|
    && FeedEnds(components, ends, i) && FeedCost(components, ends, i) + remaining == budget
    && |events| + remaining <= i + budget
    && Traced(components, windowStart, windowEnd, trace, events) && CompleteBut(components, trace, 0)
  }

  /** How taking the components has ended. */
  ghost predicate Ended(components: seq<Component>, windowStart: int, windowEnd: int, trace: seq<seq<Span>>,
                        ends: seq<seq<nat>>, events: seq<CalendarEvent>, remaining: nat, budget: nat, status: Status)
  {
    && remaining <= budget && |events| + remaining <= |components| + budget
    && Traced(components, windowStart, windowEnd, trace, events)
    && CompleteBut(components, trace, if status.Complete? then 0 else 1)
    && (status.Complete? ==> |trace| == |components| && FeedAffordable(components, ends, budget))
    && (status.WorkBudgetExceeded? ==> forall other :: !FeedAffordable(components, other, budget))
  }

  lemma TookNone(components: seq<Component>, windowStart: int, windowEnd: int, budget: nat)
    ensures Took(components, windowStart, windowEnd, [], [], [], budget, 0, budget)
  {
  }

  lemma TookAll(components: seq<Component>, windowStart: int, windowEnd: int, trace: seq<seq<Span>>,
                ends: seq<seq<nat>>, events: seq<CalendarEvent>, remaining: nat, budget: nat)
    requires Took(components, windowStart, windowEnd, trace, ends, events, remaining, |components|, budget)
    ensures Ended(components, windowStart, windowEnd, trace, ends, events, remaining, budget, Complete)
  {
  }

  lemma TookSome(components: seq<Component>, windowStart: int, windowEnd: int, trace: seq<seq<Span>>,
                 ends: seq<seq<nat>>, events: seq<CalendarEvent>, remaining: nat, i: nat, budget: nat)
    requires Took(components, windowStart, windowEnd, trace, ends, events, remaining, i, budget)
    ensures Ended(components, windowStart, windowEnd, trace, ends, events, remaining, budget, Cancelled)
  {
  }

  datatype Progress = More | Finished | Stopped | Failed(status: Status)

  /** The events' places by start. */
  ghost predicate Indexes(index: map<UnixSeconds, nat>, starts: seq<UnixSeconds>, base: nat) {
    && (forall i :: 0 <= i < |starts| ==> starts[i] in index && index[starts[i]] == base + i)
    && (forall s :: s in index ==> s in starts)
  }

  /** The vector and the index hold the other events and this master's instances so far. */
  ghost predicate Holds(m: Master, events: seq<CalendarEvent>, index: map<UnixSeconds, nat>,
                        others: seq<CalendarEvent>, spans: seq<Span>)
  {
    events == others + Instances(m, spans) && Indexes(index, Starts(m, spans, |spans|), |others|)
  }

  lemma AddRejected(m: Master, events: seq<CalendarEvent>, index: map<UnixSeconds, nat>, others: seq<CalendarEvent>,
                    spans: seq<Span>, span: Span)
    requires Holds(m, events, index, others, spans) && !m.Accepts(span)
    ensures Holds(m, events, index, others, spans + [span])
  {
    InstancesIfRejected(m, spans, span);
  }

  lemma IndexGrows(index: map<UnixSeconds, nat>, starts: seq<UnixSeconds>, base: nat, start: UnixSeconds)
    requires Indexes(index, starts, base) && start !in index
    ensures start !in starts && Indexes(index[start := base + |starts|], starts + [start], base)
  {
    var longer, after := starts + [start], index[start := base + |starts|];
    forall i | 0 <= i < |longer| ensures longer[i] in after && after[longer[i]] == base + i {
      assert i < |starts| ==> longer[i] == starts[i];
    }
    assert longer[|starts|] == start;
    forall s | s in index ensures s in longer {
      var i :| 0 <= i < |starts| && starts[i] == s;
      assert longer[i] == s;
    }
  }

  lemma AddNew(m: Master, events: seq<CalendarEvent>, index: map<UnixSeconds, nat>, others: seq<CalendarEvent>,
               spans: seq<Span>, span: Span)
    requires Holds(m, events, index, others, spans) && m.Accepts(span) && m.At(span) !in index
    ensures Holds(m, events + [m.Instance(span)], index[m.At(span) := |events|], others, spans + [span])
  {
    IndexGrows(index, Starts(m, spans, |spans|), |others|, m.At(span));
    InstancesIfNew(m, spans, span);
    Appended(others, Instances(m, spans), m.Instance(span));
  }

  lemma Appended<T>(a: seq<T>, b: seq<T>, x: T)
    ensures a + b + [x] == a + (b + [x])
  {
  }

  lemma UpdatedInside<T>(a: seq<T>, b: seq<T>, i: nat, x: T)
    requires i < |b|
    ensures a + b[i := x] == (a + b)[|a| + i := x]
  {
  }

  lemma AddAgain(m: Master, events: seq<CalendarEvent>, index: map<UnixSeconds, nat>, others: seq<CalendarEvent>,
                 spans: seq<Span>, span: Span)
    requires Holds(m, events, index, others, spans) && m.Accepts(span) && m.At(span) in index
    ensures index[m.At(span)] < |events|
    ensures Holds(m, if span.explicitPeriod then events[index[m.At(span)] := m.Instance(span)] else events,
                  index, others, spans + [span])
  {
    var starts := Starts(m, spans, |spans|);
    var i :| 0 <= i < |starts| && starts[i] == m.At(span);
    InstancesIfAgain(m, spans, span, i);
    UpdatedInside(others, Instances(m, spans), i, m.Instance(span));
  }

  class Expansion {
    // When the stop token starts to report a request, counted in checks of it.
    const stopAt: Option<nat>
    var checks: nat
    var remaining: nat
    var events: seq<CalendarEvent>
    var eventIndexByStart: map<UnixSeconds, nat>
    // The events before the current master's, and its contributions so far.
    ghost var others: seq<CalendarEvent>
    ghost var spans: seq<Span>

    constructor (budget: nat, stopAt: Option<nat>)
      ensures remaining == budget && events == [] && checks == 0 && this.stopAt == stopAt
    {
      this.stopAt := stopAt;
      checks, remaining, events, eventIndexByStart, others, spans := 0, budget, [], map[], [], [];
    }

    /** The stop has been seen by a check. */
    predicate Stopping()
      reads this`checks
    {
      stopAt.Some? && stopAt.value < checks
    }

    ghost predicate Expanding(m: Master)
      reads this`events, this`eventIndexByStart, this`others, this`spans
    {
      Holds(m, events, eventIndexByStart, others, spans)
    }

    method StopRequested() returns (stop: bool)
      modifies this`checks
      ensures checks == old(checks) + 1 && stop == Stopping()
    {
      stop := stopAt.Some? && stopAt.value <= checks;
      checks := checks + 1;
    }

    method ConsumeWork() returns (ok: bool)
      modifies this`checks, this`remaining
      ensures checks == old(checks) + 1
      ensures ok <==> !Stopping() && old(remaining) > 0
      ensures remaining == if ok then old(remaining) - 1 else old(remaining)
    {
      var stop := StopRequested();
      if stop || remaining == 0 {
        return false;
      }
      remaining := remaining - 1;
      return true;
    }

    /** Why the work stopped. */
    method Outcome() returns (status: Status)
      modifies this`checks
      ensures checks == old(checks) + 1
      ensures status == if Stopping() then Cancelled else WorkBudgetExceeded
    {
      var stop := StopRequested();
      status := if stop then Cancelled else WorkBudgetExceeded;
    }

    /** addRecurrence: one instance per start, replaced only by an explicit period. */
    method AddRecurrence(m: Master, span: Span)
      requires Expanding(m)
      modifies this`events, this`eventIndexByStart, this`spans
      ensures Expanding(m) && spans == old(spans) + [span]
    {
      var event := m.Instance(span);
      var tick := event.start * TICKS_PER_SECOND;
      if tick < m.windowStart || tick > m.windowEnd {
        AddRejected(m, events, eventIndexByStart, others, spans, span);
      } else if tick in m.exclusions {
        AddRejected(m, events, eventIndexByStart, others, spans, span);
      } else if event.start in eventIndexByStart {
        AddAgain(m, events, eventIndexByStart, others, spans, span);
        if span.explicitPeriod {
          events := events[eventIndexByStart[event.start] := event];
        }
      } else {
        AddNew(m, events, eventIndexByStart, others, spans, span);
        eventIndexByStart := eventIndexByStart[event.start := |events|];
        events := events + [event];
      }
      spans := spans + [span];
    }

    method TakeOccurrence(m: Master, occurrence: Occurrence)
      requires Expanding(m)
      modifies this`events, this`eventIndexByStart, this`spans
      ensures Expanding(m) && spans == old(spans) + OccurrenceSpans(m.component, Some(occurrence))
    {
      if !occurrence.excluded {
        AddRecurrence(m, DefaultSpan(m.component, occurrence.unix));
      }
    }

    /** One call of the iterator, and what comes of it. */
    method Advance(m: Master, rule: Rule, k: nat) returns (progress: Progress)
      requires Expanding(m) && rule.Rule?
      modifies this`checks, this`remaining, this`events, this`eventIndexByStart, this`spans
      ensures Expanding(m) && checks >= old(checks)
      ensures spans == old(spans) + (if progress.More? then OccurrenceSpans(m.component, rule.next(k)) else [])
      ensures progress.More? ==> rule.next(k).Some? && !rule.next(k).value.beyond && remaining + 1 == old(remaining)
      ensures progress.Finished? ==>
              (rule.next(k).Some? ==> rule.next(k).value.beyond) && remaining + Cost(rule, k) == old(remaining) + k
      ensures progress.Stopped? ==> Stopping() && remaining == old(remaining)
      ensures progress.Failed? ==>
        && rule.next(k).Some? && remaining == old(remaining)
        && progress.status == (if Stopping() then Cancelled else WorkBudgetExceeded) && (Stopping() || remaining == 0)
    {
      var stop := StopRequested();
      if stop {
        return Stopped;
      }
      var occurrence := rule.next(k);
      if occurrence.None? {
        return Finished;
      }
      var ok := ConsumeWork();
      if !ok {
        var status := Outcome();
        return Failed(status);
      }
      if occurrence.value.beyond {
        return Finished;
      }
      TakeOccurrence(m, occurrence.value);
      return More;
    }

    /** One RRULE: ends with its iterator, past the window, or when the budget or the stop token says so. */
    method RunRule(m: Master, rule: Rule) returns (status: Status, ghost end: nat)
      requires Expanding(m) && rule.Rule?
      modifies this`checks, this`remaining, this`events, this`eventIndexByStart, this`spans
      ensures Expanding(m) && spans == old(spans) + RuleSpans(m.component, rule, end)
      ensures remaining + end <= old(remaining) && checks >= old(checks)
      ensures status.Complete? ==> Ends(rule, end) && remaining + Cost(rule, end) == old(remaining)
      ensures status.WorkBudgetExceeded? ==> remaining == 0 && Overruns(rule, old(remaining))
      ensures status.Cancelled? ==> Stopping()
      ensures !status.InvalidCalendar?
    {
      end := 0;
      var k, progress := 0, More;
      while progress.More?
        invariant Expanding(m) && spans == old(spans) + RuleSpans(m.component, rule, k)
        invariant end == k && Yields(rule, k) && checks >= old(checks)
        invariant progress.More? || progress.Failed? || progress.Stopped? ==> remaining + k == old(remaining)
        invariant progress.Finished? ==> Ends(rule, k) && remaining + Cost(rule, k) == old(remaining)
        invariant progress.Stopped? ==> Stopping()
        invariant progress.Failed? ==>
          && rule.next(k).Some? && (Stopping() || remaining == 0)
          && progress.status == if Stopping() then Cancelled else WorkBudgetExceeded
        decreases progress.More?, remaining
      {
        progress := Advance(m, rule, k);
        if progress.More? {
          k := k + 1;
          end := k;
        }
      }
      if progress.Failed? {
        return progress.status, end;
      }
      var stop := StopRequested();
      status := if stop then Cancelled else Complete;
    }

    /** The RDATEs, each costing one unit of work. */
    method RunRdates(m: Master) returns (status: Status, ghost done: nat)
      requires Expanding(m)
      modifies this`checks, this`remaining, this`events, this`eventIndexByStart, this`spans
      ensures Expanding(m) && done <= |m.component.rdates|
      ensures spans == old(spans) + RdateSpans(m.component, done) && remaining + done == old(remaining)
      ensures status.Complete? ==> done == |m.component.rdates|
      ensures status.WorkBudgetExceeded? ==> old(remaining) < |m.component.rdates|
      ensures status.Cancelled? ==> Stopping()
      ensures !status.InvalidCalendar?
    {
      done := 0;
      for i := 0 to |m.component.rdates|
        invariant Expanding(m) && done == i
        invariant spans == old(spans) + RdateSpans(m.component, i) && remaining + i == old(remaining)
      {
        var ok := ConsumeWork();
        if !ok {
          status := Outcome();
          return;
        }
        TakeRdate(m, m.component.rdates[i]);
        done := i + 1;
      }
      var stop := StopRequested();
      status := if stop then Cancelled else Complete;
    }

    method TakeRdate(m: Master, d: Rdate)
      requires Expanding(m)
      modifies this`events, this`eventIndexByStart, this`spans
      ensures Expanding(m)
      ensures spans == old(spans) + if d.Null? || d.excluded then [] else [RdateSpan(m.component, d)]
    {
      if d.Rdate? && !d.excluded {
        AddRecurrence(m, RdateSpan(m.component, d));
      }
    }

    /** The next rule; one that cannot be built is skipped. */
    method RunNextRule(m: Master, i: nat, ghost ends: seq<nat>, ghost budget: nat)
      returns (status: Status, ghost end: nat)
      requires Expanding(m) && i < |m.component.rules| && remaining <= budget
      requires RulesDone(m.component, ends, i, spans, budget - remaining)
      modifies this`checks, this`remaining, this`events, this`eventIndexByStart, this`spans
      ensures Expanding(m) && remaining <= old(remaining) && |spans| + remaining <= |old(spans)| + old(remaining)
      ensures status.Complete? ==> RulesDone(m.component, ends + [end], i + 1, spans, budget - remaining)
      ensures status.WorkBudgetExceeded? ==> forall other :: !Affordable(m.component, other, budget)
      ensures status.Cancelled? ==> Stopping()
      ensures !status.InvalidCalendar?
    {
      end := 0;
      ghost var was, left := spans, remaining;
      status := Complete;
      if m.component.rules[i].Rule? {
        status, end := RunRule(m, m.component.rules[i]);
        if status.WorkBudgetExceeded? {
          forall other ensures !Affordable(m.component, other, budget) {
            RuleOverrun(m.component, ends, i, budget, other);
          }
        }
      }
      RuleDone(m.component, ends, i, was, budget - left, end);
    }

    /** The rules in order, while they end. */
    method RunRules(m: Master) returns (status: Status, ghost ends: seq<nat>)
      requires Expanding(m) && spans == BaseSpans(m.component)
      modifies this`checks, this`remaining, this`events, this`eventIndexByStart, this`spans
      ensures Expanding(m) && remaining <= old(remaining)
      ensures |spans| + remaining <= |BaseSpans(m.component)| + old(remaining)
      ensures status.Complete? ==> RulesDone(m.component, ends, |m.component.rules|, spans, old(remaining) - remaining)
      ensures status.WorkBudgetExceeded? ==> forall other :: !Affordable(m.component, other, old(remaining))
      ensures status.Cancelled? ==> Stopping()
      ensures !status.InvalidCalendar?
    {
      ends := [];
      for i := 0 to |m.component.rules|
        invariant Expanding(m) && remaining <= old(remaining)
        invariant RulesDone(m.component, ends, i, spans, old(remaining) - remaining)
        invariant |spans| + remaining <= |BaseSpans(m.component)| + old(remaining)
      {
        ghost var end;
        status, end := RunNextRule(m, i, ends, old(remaining));
        if !status.Complete? {
          return;
        }
        ends := ends + [end];
      }
      status := Complete;
    }

    /** Expands one master. What is left undone could not have been afforded, unless a stop was seen. */
    method Expand(m: Master) returns (status: Status, ghost ends: seq<nat>)
      modifies this
      ensures Expanding(m) && others == old(events)
      ensures remaining <= old(remaining) && |spans| <= |BaseSpans(m.component)| + old(remaining) - remaining
      ensures status.Complete? ==> Affordable(m.component, ends, old(remaining)) && spans == Whole(m.component, ends)
      ensures status.Complete? ==> events == old(events) + Instances(m, Whole(m.component, ends))
      ensures status.Complete? ==>
                RulesCost(m.component, ends, |m.component.rules|) + |m.component.rdates| + remaining == old(remaining)
      ensures status.WorkBudgetExceeded? ==> forall other :: !Affordable(m.component, other, old(remaining))
      ensures status.Cancelled? ==> Stopping()
      ensures !status.InvalidCalendar?
    {
      others, spans, eventIndexByStart := events, [], map[];
      if m.component.rules == [] && !m.component.startExcluded {
        AddRecurrence(m, DefaultSpan(m.component, m.component.startUnix));
      }
      status, ends := RunRules(m);
      if !status.Complete? {
        return;
      }
      ghost var done;
      status, done := RunRdates(m);
      if status.WorkBudgetExceeded? {
        forall other ensures !Affordable(m.component, other, old(remaining)) {
          RdateOverrun(m.component, ends, old(remaining), other);
        }
      }
    }

    /** The RECURRENCE-IDs of the overriding components, by UID. */
    method CollectOverrides(components: seq<Component>) returns (overrides: map<string, seq<int>>, cancelled: bool)
      modifies this`checks
      ensures cancelled ==> Stopping()
      ensures !cancelled ==> forall uid :: Lookup(overrides, uid) == Overridden(components, uid, |components|)
    {
      overrides := map[];
      for i := 0 to |components|
        invariant forall uid :: Lookup(overrides, uid) == Overridden(components, uid, i)
      {
        var stop := StopRequested();
        if stop {
          return overrides, true;
        }
        var c := components[i];
        ghost var before := overrides;
        if c.recurrenceId.Some? && (c.validStart || (c.cancelled && !c.hasStart)) {
          overrides := overrides[c.base.id := Lookup(overrides, c.base.id) + [c.recurrenceId.value]];
        }
        forall uid ensures Lookup(overrides, uid) == Overridden(components, uid, i + 1) {
          assert Lookup(before, uid) == Overridden(components, uid, i);
        }
      }
      cancelled := false;
    }

    /** One component's turn. */
    method TakeComponent(components: seq<Component>, overrides: map<string, seq<int>>, windowStart: int, windowEnd: int,
                         i: nat)
      returns (status: Status, ghost taken: seq<Span>, ghost ends: seq<nat>)
      requires i < |components| && forall uid :: Lookup(overrides, uid) == Overridden(components, uid, |components|)
      modifies this
      ensures events == old(events) + Block(components, windowStart, windowEnd, i, taken)
      ensures remaining <= old(remaining) && |events| + remaining <= |old(events)| + 1 + old(remaining)
      ensures status.Complete? ==> IsComplete(components[i], taken)
      ensures status.Complete? ==>
                AllEnd(components[i], ends) && ComponentCost(components[i], ends) + remaining == old(remaining)
      ensures status.WorkBudgetExceeded? ==>
                Expanded(components[i]) && forall own :: !Affordable(components[i], own, old(remaining))
      ensures status.Cancelled? ==> Stopping()
      ensures !status.InvalidCalendar?
    {
      var c := components[i];
      taken, ends := [], seq(|c.rules|, _ => 0);
      if c.cancelled || !c.validStart {
        return Complete, taken, ends;
      }
      if c.rules == [] && c.rdates == [] {
        events := events + [c.base];
        return Complete, taken, ends;
      }
      assert Lookup(overrides, c.base.id) == Overridden(components, c.base.id, |components|);
      status, ends := Expand(Master(c, windowStart, windowEnd, Lookup(overrides, c.base.id)));
      taken := spans;
      StartsAreFew(Master(c, windowStart, windowEnd, Lookup(overrides, c.base.id)), spans, |spans|);
    }

    method TakeNext(components: seq<Component>, overrides: map<string, seq<int>>, windowStart: int, windowEnd: int,
                    i: nat, ghost before: seq<seq<Span>>, ghost ends: seq<seq<nat>>, ghost budget: nat)
      returns (status: Status, ghost trace: seq<seq<Span>>, ghost own: seq<nat>)
      requires i < |components|
      requires Took(components, windowStart, windowEnd, before, ends, events, remaining, i, budget)
      requires forall uid :: Lookup(overrides, uid) == Overridden(components, uid, |components|)
      modifies this
      ensures if status.Complete? then
                Took(components, windowStart, windowEnd, trace, ends + [own], events, remaining, i + 1, budget)
              else Ended(components, windowStart, windowEnd, trace, ends, events, remaining, budget, status)
      ensures status.Cancelled? ==> Stopping()
      ensures !status.InvalidCalendar?
    {
      ghost var taken, was, left := [], events, remaining;
      status, taken, own := TakeComponent(components, overrides, windowStart, windowEnd, i);
      TraceGrows(components, windowStart, windowEnd, before, was, taken);
      CompletenessGrows(components, before, taken, if status.Complete? then 0 else 1);
      trace := before + [taken];
      if status.WorkBudgetExceeded? {
        forall other ensures !FeedAffordable(components, other, budget) {
          FeedOverrun(components, ends, budget, left, other);
        }
      } else if status.Complete? {
        FeedEndsMore(components, ends, own);
      }
    }

    /** The components in order, until one cannot be finished. */
    method TakeComponents(components: seq<Component>, overrides: map<string, seq<int>>, windowStart: int,
                          windowEnd: int)
      returns (status: Status, ghost trace: seq<seq<Span>>, ghost ends: seq<seq<nat>>)
      requires events == [] && forall uid :: Lookup(overrides, uid) == Overridden(components, uid, |components|)
      modifies this
      ensures Ended(components, windowStart, windowEnd, trace, ends, events, remaining, old(remaining), status)
      ensures status.Cancelled? ==> Stopping()
      ensures !status.InvalidCalendar?
    {
      trace, ends := [], [];
      TookNone(components, windowStart, windowEnd, remaining);
      for i := 0 to |components|
        invariant Took(components, windowStart, windowEnd, trace, ends, events, remaining, i, old(remaining))
      {
        var stop := StopRequested();
        if stop {
          TookSome(components, windowStart, windowEnd, trace, ends, events, remaining, i, old(remaining));
          return Cancelled, trace, ends;
        }
        ghost var own;
        status, trace, own := TakeNext(components, overrides, windowStart, windowEnd, i, trace, ends, old(remaining));
        if !status.Complete? {
          return;
        }
        ends := ends + [own];
      }
      TookAll(components, windowStart, windowEnd, trace, ends, events, remaining, old(remaining));
      status := Complete;
    }

    /** parseICalEvents: what is returned, and why it ended. */
    method Parse(feed: Feed, windowStart: int, windowEnd: int)
      returns (result: seq<CalendarEvent>, status: Status, ghost trace: seq<seq<Span>>, ghost ends: seq<seq<nat>>)
      requires events == []
      modifies this
      ensures remaining <= old(remaining)
      ensures feed.NotCalendar? ==> result == [] && status.InvalidCalendar?
      ensures feed.Feed? && !status.InvalidCalendar? ==> Traced(feed.components, windowStart, windowEnd, trace, result)
      ensures feed.Feed? ==> CompleteBut(feed.components, trace, if status.Complete? then 0 else 1)
      ensures status.Complete? ==> feed.Feed? && |trace| == |feed.components|
      ensures status.Complete? && result == [] ==> feed.unparseableLines == 0
      ensures feed.Feed? ==> |result| + remaining <= |feed.components| + old(remaining)
      ensures status.Complete? ==> feed.Feed? && FeedAffordable(feed.components, ends, old(remaining))
      ensures status.WorkBudgetExceeded? ==>
                feed.Feed? && forall other :: !FeedAffordable(feed.components, other, old(remaining))
      ensures status.InvalidCalendar? ==> result == []
      ensures status.Cancelled? ==> Stopping()
    {
      trace, ends := [], [];
      if feed.NotCalendar? {
        return [], InvalidCalendar, trace, ends;
      }
      var overrides, cancelled := CollectOverrides(feed.components);
      if cancelled {
        return [], Cancelled, trace, ends;
      }
      status, trace, ends := TakeComponents(feed.components, overrides, windowStart, windowEnd);
      if status.Complete? && events == [] && feed.unparseableLines > 0 {
        return [], InvalidCalendar, trace, ends;
      }
      result := events;
    }
  }
}
