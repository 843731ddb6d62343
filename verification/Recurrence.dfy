/** src/calendar/ical_parser.cpp: what the instances of a recurring event are. */
module Recurrence {
  import opened Wrappers
  import opened CalendarTypes

  // ---- what a component offers ----

  /** A contribution to the series; `explicitPeriod` if an RDATE gives its own end. */
  datatype Span = Span(start: int, end: int, explicitPeriod: bool)

  /** What the rule iterator yields: whether it lies past the window's end, whether EXDATE excludes it. */
  datatype Occurrence = Occurrence(unix: int, beyond: bool, excluded: bool)

  /** A rule whose iterator, possibly endless, could be built, or one to be skipped. */
  datatype Rule = Broken | Rule(next: nat -> Option<Occurrence>)

  datatype Length = Default | Until(end: int) | Lasting(seconds: int)

  datatype Rdate = Null | Rdate(unix: int, excluded: bool, length: Length)

  /** A VEVENT: `place` turns the span's time into the event's, by local date, wall time or UTC. */
  datatype Component = Component(
    base: CalendarEvent,
    recurrenceId: Option<int>,
    cancelled: bool,
    hasStart: bool,
    validStart: bool,
    startUnix: int,
    duration: int,
    startExcluded: bool,
    rules: seq<Rule>,
    rdates: seq<Rdate>,
    place: int -> UnixSeconds)
  {
    predicate Recurring() { rules != [] || rdates != [] }

    /** What makes a RECURRENCE-ID replace the master's instance. */
    predicate Overrides() { recurrenceId.Some? && (validStart || (cancelled && !hasStart)) }
  }

  // ---- the series ----

  /** A recurring master with the window it is expanded in and the instants overridden elsewhere. */
  datatype Master = Master(component: Component, windowStart: int, windowEnd: int, exclusions: seq<int>) {
    function At(span: Span): UnixSeconds { component.place(span.start) }

    function Instance(span: Span): CalendarEvent {
      component.base.(start := component.place(span.start), end := component.place(span.end))
    }

    predicate Accepts(span: Span) {
      var tick := At(span) * TICKS_PER_SECOND;
      windowStart <= tick <= windowEnd && tick !in exclusions
    }

    predicate Offers(span: Span, start: UnixSeconds) { Accepts(span) && At(span) == start }
  }

  /** The starts of the first `n` contributions, in order of first appearance. */
  function Starts(m: Master, spans: seq<Span>, n: nat): seq<UnixSeconds>
    requires n <= |spans|
  {
    if n == 0 then []
    else
      var before := Starts(m, spans, n - 1);
      if m.Accepts(spans[n - 1]) && m.At(spans[n - 1]) !in before then before + [m.At(spans[n - 1])] else before
  }

  lemma {:induction false} StartsAreFew(m: Master, spans: seq<Span>, n: nat)
    requires n <= |spans|
    ensures |Starts(m, spans, n)| <= n
  {
    if n > 0 {
      StartsAreFew(m, spans, n - 1);
    }
  }

  /** The contribution that stands for a start: the latest explicit period, or else the first of all. */
  function Winner(m: Master, spans: seq<Span>, start: UnixSeconds, n: nat): Option<Span>
    requires n <= |spans|
  {
    if n == 0 then None
    else
      var before := Winner(m, spans, start, n - 1);
      if m.Offers(spans[n - 1], start) && (before.None? || spans[n - 1].explicitPeriod) then Some(spans[n - 1])
        else before
  }

  lemma {:induction false} WinnerExistsIff(m: Master, spans: seq<Span>, start: UnixSeconds, n: nat)
    requires n <= |spans|
    ensures start in Starts(m, spans, n) <==> Winner(m, spans, start, n).Some?
    ensures Winner(m, spans, start, n).Some? ==> m.Offers(Winner(m, spans, start, n).value, start)
  {
    if n > 0 {
      WinnerExistsIff(m, spans, start, n - 1);
    }
  }

  /** The instance at position `i`. */
  function InstanceAt(m: Master, spans: seq<Span>, i: nat): CalendarEvent
    requires i < |Starts(m, spans, |spans|)|
  {
    WinnerExistsIff(m, spans, Starts(m, spans, |spans|)[i], |spans|);
    m.Instance(Winner(m, spans, Starts(m, spans, |spans|)[i], |spans|).value)
  }

  /** The instances of the series, one for every start. */
  function Instances(m: Master, spans: seq<Span>): (events: seq<CalendarEvent>)
    ensures |events| == |Starts(m, spans, |spans|)|
  {
    seq(|Starts(m, spans, |spans|)|, i requires 0 <= i < |Starts(m, spans, |spans|)| => InstanceAt(m, spans, i))
  }

  lemma InstanceStart(m: Master, spans: seq<Span>, i: nat)
    requires i < |Instances(m, spans)|
    ensures Instances(m, spans)[i].start == Starts(m, spans, |spans|)[i]
  {
    WinnerExistsIff(m, spans, Starts(m, spans, |spans|)[i], |spans|);
  }

  lemma {:induction false} StartsAreDistinct(m: Master, spans: seq<Span>, n: nat)
    requires n <= |spans|
    ensures forall i, j :: 0 <= i < j < |Starts(m, spans, n)| ==> Starts(m, spans, n)[i] != Starts(m, spans, n)[j]
  {
    if n > 0 {
      StartsAreDistinct(m, spans, n - 1);
    }
  }

  /** At most one instance per start instant, each inside the window and at no overridden instant. */
  lemma InstancesAreSound(m: Master, spans: seq<Span>, i: nat, j: nat)
    requires i < j < |Instances(m, spans)| || i == j < |Instances(m, spans)|
    ensures var e := Instances(m, spans)[i];
      && m.windowStart <= StartTick(e) <= m.windowEnd && StartTick(e) !in m.exclusions
      && (i < j ==> e.start != Instances(m, spans)[j].start)
  {
    InstanceStart(m, spans, i);
    InstanceStart(m, spans, j);
    StartsAreDistinct(m, spans, |spans|);
    WinnerExistsIff(m, spans, Starts(m, spans, |spans|)[i], |spans|);
  }

  /** Every contribution inside the window and not overridden has its instance. */
  lemma {:induction false} NoStartIsLost(m: Master, spans: seq<Span>, n: nat, k: nat)
    requires k < n <= |spans| && m.Accepts(spans[k])
    ensures m.At(spans[k]) in Starts(m, spans, n)
  {
    if k < n - 1 {
      NoStartIsLost(m, spans, n - 1, k);
    }
  }

  /** An explicit period wins over every default duration at its start, the last such period over the
      others; without one the first contribution stands. */
  lemma {:induction false} WinnerIs(m: Master, spans: seq<Span>, start: UnixSeconds, n: nat, k: nat)
    requires k < n <= |spans| && m.Offers(spans[k], start)
    requires
      || (spans[k].explicitPeriod && forall j :: k < j < n && m.Offers(spans[j], start) ==> !spans[j].explicitPeriod)
      || (forall j :: 0 <= j < n && m.Offers(spans[j], start) ==> j >= k && !spans[j].explicitPeriod)
    ensures Winner(m, spans, start, n) == Some(spans[k])
  {
    if k < n - 1 {
      WinnerIs(m, spans, start, n - 1, k);
    } else if !spans[k].explicitPeriod {
      NoneBefore(m, spans, start, k);
    }
  }

  lemma {:induction false} NoneBefore(m: Master, spans: seq<Span>, start: UnixSeconds, n: nat)
    requires n <= |spans| && forall j :: 0 <= j < n ==> !m.Offers(spans[j], start)
    ensures Winner(m, spans, start, n) == None
  {
    if n > 0 {
      NoneBefore(m, spans, start, n - 1);
    }
  }

  // ---- one more contribution ----

  lemma {:induction false} StartsAgree(m: Master, a: seq<Span>, b: seq<Span>, n: nat)
    requires n <= |a| && n <= |b| && forall i :: 0 <= i < n ==> a[i] == b[i]
    ensures Starts(m, a, n) == Starts(m, b, n)
  {
    if n > 0 {
      StartsAgree(m, a, b, n - 1);
    }
  }

  lemma {:induction false} WinnerAgrees(m: Master, a: seq<Span>, b: seq<Span>, start: UnixSeconds, n: nat)
    requires n <= |a| && n <= |b| && forall i :: 0 <= i < n ==> a[i] == b[i]
    ensures Winner(m, a, start, n) == Winner(m, b, start, n)
  {
    if n > 0 {
      WinnerAgrees(m, a, b, start, n - 1);
    }
  }

  lemma StartsAfter(m: Master, spans: seq<Span>, span: Span)
    ensures Starts(m, spans + [span], |spans| + 1) ==
            (var before := Starts(m, spans, |spans|);
             if m.Accepts(span) && m.At(span) !in before then before + [m.At(span)] else before)
  {
    StartsAgree(m, spans + [span], spans, |spans|);
  }

  lemma WinnerAfter(m: Master, spans: seq<Span>, span: Span, start: UnixSeconds)
    ensures Winner(m, spans + [span], start, |spans| + 1) ==
            (var before := Winner(m, spans, start, |spans|);
             if m.Offers(span, start) && (before.None? || span.explicitPeriod) then Some(span) else before)
  {
    WinnerAgrees(m, spans + [span], spans, start, |spans|);
  }

  lemma InstanceAtAfter(m: Master, spans: seq<Span>, span: Span, i: nat)
    requires i < |Starts(m, spans, |spans|)|
    ensures i < |Starts(m, spans + [span], |spans| + 1)|
    ensures InstanceAt(m, spans + [span], i) ==
            if m.Offers(span, Starts(m, spans, |spans|)[i]) && span.explicitPeriod then m.Instance(span)
              else InstanceAt(m, spans, i)
  {
    var start := Starts(m, spans, |spans|)[i];
    StartsAfter(m, spans, span);
    WinnerAfter(m, spans, span, start);
    WinnerExistsIff(m, spans, start, |spans|);
  }

  lemma InstancesIfRejected(m: Master, spans: seq<Span>, span: Span)
    requires !m.Accepts(span)
    ensures Starts(m, spans + [span], |spans| + 1) == Starts(m, spans, |spans|)
    ensures Instances(m, spans + [span]) == Instances(m, spans)
  {
    var before, after := Instances(m, spans), Instances(m, spans + [span]);
    StartsAfter(m, spans, span);
    assert |after| == |before|;
    forall i | 0 <= i < |before| ensures after[i] == before[i] {
      InstanceAtAfter(m, spans, span, i);
    }
  }

  lemma InstancesIfNew(m: Master, spans: seq<Span>, span: Span)
    requires m.Accepts(span) && m.At(span) !in Starts(m, spans, |spans|)
    ensures Starts(m, spans + [span], |spans| + 1) == Starts(m, spans, |spans|) + [m.At(span)]
    ensures Instances(m, spans + [span]) == Instances(m, spans) + [m.Instance(span)]
  {
    var before, after := Instances(m, spans), Instances(m, spans + [span]);
    var n := |before|;
    StartsAfter(m, spans, span);
    assert |after| == n + 1;
    forall i | 0 <= i < n ensures after[i] == before[i] {
      InstanceAtAfter(m, spans, span, i);
    }
    WinnerAfter(m, spans, span, m.At(span));
    WinnerExistsIff(m, spans, m.At(span), |spans|);
    assert InstanceAt(m, spans + [span], n) == m.Instance(span);
  }

  lemma InstancesIfAgain(m: Master, spans: seq<Span>, span: Span, at: nat)
    requires m.Accepts(span) && at < |Starts(m, spans, |spans|)| && Starts(m, spans, |spans|)[at] == m.At(span)
    ensures Starts(m, spans + [span], |spans| + 1) == Starts(m, spans, |spans|)
    ensures Instances(m, spans + [span]) ==
            if span.explicitPeriod then Instances(m, spans)[at := m.Instance(span)] else Instances(m, spans)
  {
    StartsAfter(m, spans, span);
    StartsAreDistinct(m, spans, |spans|);
    var before, after := Instances(m, spans), Instances(m, spans + [span]);
    assert |after| == |before|;
    forall i | 0 <= i < |before|
      ensures after[i] == if i == at && span.explicitPeriod then m.Instance(span) else before[i]
    {
      InstanceAtAfter(m, spans, span, i);
    }
  }

  // ---- all that a component offers ----

  /** The rule has at least `k` occurrences, and the first `k` lie in the window. */
  ghost predicate Yields(rule: Rule, k: nat) {
    rule.Rule? && forall j: nat :: j < k ==> rule.next(j).Some? && !rule.next(j).value.beyond
  }

  /** The rule's iteration stops at its `k`-th call: exhausted, or past the window. */
  ghost predicate Ends(rule: Rule, k: nat) {
    Yields(rule, k) && (rule.next(k).Some? ==> rule.next(k).value.beyond)
  }

  /** Every occurrence looked at costs one unit of work, the one past the window too. */
  function Cost(rule: Rule, k: nat): nat
    requires rule.Rule?
  {
    if rule.next(k).Some? then k + 1 else k
  }

  function DefaultSpan(c: Component, unix: int): Span { Span(unix, unix + c.duration, false) }

  function OccurrenceSpans(c: Component, o: Option<Occurrence>): seq<Span> {
    if o.None? || o.value.excluded then [] else [DefaultSpan(c, o.value.unix)]
  }

  function RuleSpans(c: Component, rule: Rule, k: nat): (spans: seq<Span>)
    requires rule.Rule?
    ensures |spans| <= k
  {
    if k == 0 then [] else RuleSpans(c, rule, k - 1) + OccurrenceSpans(c, rule.next(k - 1))
  }

  function RdateSpan(c: Component, d: Rdate): Span
    requires d.Rdate?
  {
    match d.length
    case Default => DefaultSpan(c, d.unix)
    case Until(end) => Span(d.unix, end, true)
    case Lasting(seconds) => Span(d.unix, d.unix + seconds, true)
  }

  function RdateSpans(c: Component, n: nat): (spans: seq<Span>)
    requires n <= |c.rdates|
    ensures |spans| <= n
  {
    if n == 0 then []
    else if c.rdates[n - 1].Null? || c.rdates[n - 1].excluded then RdateSpans(c, n - 1)
    else RdateSpans(c, n - 1) + [RdateSpan(c, c.rdates[n - 1])]
  }

  /** A master without a rule contributes its own start. */
  function BaseSpans(c: Component): seq<Span> {
    if c.rules == [] && !c.startExcluded then [DefaultSpan(c, c.startUnix)] else []
  }

  ghost predicate RulesEnd(c: Component, ends: seq<nat>, n: nat) {
    n <= |c.rules| && n <= |ends| && forall i :: 0 <= i < n && c.rules[i].Rule? ==> Ends(c.rules[i], ends[i])
  }

  function RulesSpans(c: Component, ends: seq<nat>, n: nat): seq<Span>
    requires n <= |c.rules| && n <= |ends|
  {
    if n == 0 then BaseSpans(c)
    else RulesSpans(c, ends, n - 1) + (if c.rules[n - 1].Broken? then [] else RuleSpans(c, c.rules[n - 1], ends[n - 1]))
  }

  function RulesCost(c: Component, ends: seq<nat>, n: nat): nat
    requires n <= |c.rules| && n <= |ends|
  {
    if n == 0 then 0
    else RulesCost(c, ends, n - 1) + (if c.rules[n - 1].Broken? then 0 else Cost(c.rules[n - 1], ends[n - 1]))
  }

  lemma {:induction false} RulesAgree(c: Component, a: seq<nat>, b: seq<nat>, n: nat)
    requires n <= |c.rules| && n <= |a| && n <= |b| && forall i :: 0 <= i < n ==> a[i] == b[i]
    ensures RulesSpans(c, a, n) == RulesSpans(c, b, n) && RulesCost(c, a, n) == RulesCost(c, b, n)
  {
    if n > 0 {
      RulesAgree(c, a, b, n - 1);
    }
  }

  /** The first `n` rules have ended, have contributed `spans` and have cost `spent`. */
  ghost predicate RulesDone(c: Component, ends: seq<nat>, n: nat, spans: seq<Span>, spent: int) {
    && n == |ends| && RulesEnd(c, ends, n)
    && spans == RulesSpans(c, ends, n) && spent == RulesCost(c, ends, n)
  }

  lemma RuleDone(c: Component, ends: seq<nat>, n: nat, spans: seq<Span>, spent: int, end: nat)
    requires RulesDone(c, ends, n, spans, spent) && n < |c.rules|
    ensures c.rules[n].Broken? ==> RulesDone(c, ends + [end], n + 1, spans, spent)
    ensures c.rules[n].Rule? && Ends(c.rules[n], end) ==>
      RulesDone(c, ends + [end], n + 1, spans + RuleSpans(c, c.rules[n], end), spent + Cost(c.rules[n], end))
  {
    RulesAgree(c, ends + [end], ends, n);
  }

  /** Every rule ends, and the whole series costs this much. */
  ghost predicate Affordable(c: Component, ends: seq<nat>, budget: nat) {
    RulesEnd(c, ends, |c.rules|) && RulesCost(c, ends, |c.rules|) + |c.rdates| <= budget
  }

  function Whole(c: Component, ends: seq<nat>): seq<Span>
    requires |c.rules| <= |ends|
  {
    RulesSpans(c, ends, |c.rules|) + RdateSpans(c, |c.rdates|)
  }

  lemma NotYetEnded(rule: Rule, a: nat, b: nat)
    requires Ends(rule, b) && a < b
    ensures !Ends(rule, a)
  {
    assert rule.next(a).Some? && !rule.next(a).value.beyond;
  }

  lemma EndIsUnique(rule: Rule, a: nat, b: nat)
    requires Ends(rule, a) && Ends(rule, b)
    ensures a == b
  {
    if a < b {
      NotYetEnded(rule, a, b);
    } else if b < a {
      NotYetEnded(rule, b, a);
    }
  }

  lemma {:induction false} CostIsUnique(c: Component, a: seq<nat>, b: seq<nat>, n: nat)
    requires RulesEnd(c, a, n) && RulesEnd(c, b, n)
    ensures RulesCost(c, a, n) == RulesCost(c, b, n) && RulesSpans(c, a, n) == RulesSpans(c, b, n)
  {
    if n > 0 {
      CostIsUnique(c, a, b, n - 1);
      if c.rules[n - 1].Rule? {
        EndIsUnique(c.rules[n - 1], a[n - 1], b[n - 1]);
      }
    }
  }

  lemma {:induction false} CostGrows(c: Component, ends: seq<nat>, m: nat, n: nat)
    requires m <= n <= |c.rules| && n <= |ends|
    ensures RulesCost(c, ends, m) <= RulesCost(c, ends, n)
    decreases n - m
  {
    if m < n {
      CostGrows(c, ends, m, n - 1);
    }
  }

  /** Every occurrence within the budget lies in the window, and there is one more. */
  ghost predicate Overruns(rule: Rule, budget: nat) {
    Yields(rule, budget) && rule.next(budget).Some?
  }

  lemma NotEndedWithin(rule: Rule, budget: nat, end: nat)
    requires Overruns(rule, budget) && end < budget
    ensures !Ends(rule, end)
  {
    assert rule.next(end).Some? && !rule.next(end).value.beyond;
  }

  lemma OverrunCosts(rule: Rule, budget: nat, end: nat)
    requires Overruns(rule, budget) && Ends(rule, end)
    ensures budget < Cost(rule, end)
  {
    if end < budget {
      NotEndedWithin(rule, budget, end);
    }
  }

  /** A rule that overruns what the rules before it have left cannot be afforded, whatever the others cost. */
  lemma RuleOverrun(c: Component, ends: seq<nat>, n: nat, budget: nat, other: seq<nat>)
    requires n < |c.rules| && RulesEnd(c, ends, n) && RulesCost(c, ends, n) <= budget
    requires Overruns(c.rules[n], budget - RulesCost(c, ends, n))
    ensures !Affordable(c, other, budget)
  {
    if RulesEnd(c, other, |c.rules|) {
      CostIsUnique(c, ends, other, n);
      OverrunCosts(c.rules[n], budget - RulesCost(c, ends, n), other[n]);
      CostGrows(c, other, n + 1, |c.rules|);
    }
  }

  /** A rule that never ends and never leaves the window exhausts any budget. */
  lemma EndlessRuleIsUnaffordable(c: Component, i: nat, ends: seq<nat>, budget: nat)
    requires i < |c.rules| && forall k: nat :: Yields(c.rules[i], k)
    ensures !Affordable(c, ends, budget)
  {
    if RulesEnd(c, ends, |c.rules|) {
      assert Yields(c.rules[i], ends[i] + 1);
      NotYetEnded(c.rules[i], ends[i], ends[i]);
    }
  }

  lemma RdateOverrun(c: Component, ends: seq<nat>, budget: nat, other: seq<nat>)
    requires RulesEnd(c, ends, |c.rules|) && budget < RulesCost(c, ends, |c.rules|) + |c.rdates|
    ensures !Affordable(c, other, budget)
  {
    if RulesEnd(c, other, |c.rules|) {
      CostIsUnique(c, ends, other, |c.rules|);
    }
  }

  // ---- the budget of a feed ----

  predicate Expanded(c: Component) { !c.cancelled && c.validStart && c.Recurring() }

  ghost predicate AllEnd(c: Component, ends: seq<nat>) {
    |ends| >= |c.rules| && (Expanded(c) ==> RulesEnd(c, ends, |c.rules|))
  }

  /** The work of a component whose rules end there; one that is not expanded takes none. */
  function ComponentCost(c: Component, ends: seq<nat>): nat
    requires |c.rules| <= |ends|
  {
    if Expanded(c) then RulesCost(c, ends, |c.rules|) + |c.rdates| else 0
  }

  lemma AffordableIff(c: Component, ends: seq<nat>, budget: nat)
    requires Expanded(c) && AllEnd(c, ends)
    ensures Affordable(c, ends, budget) <==> ComponentCost(c, ends) <= budget
  {
  }

  /** The rules of the first `n` components end there. */
  ghost predicate FeedEnds(components: seq<Component>, ends: seq<seq<nat>>, n: nat) {
    n <= |components| && n <= |ends| && forall i :: 0 <= i < n ==> AllEnd(components[i], ends[i])
  }

  ghost function FeedCost(components: seq<Component>, ends: seq<seq<nat>>, n: nat): nat
    requires FeedEnds(components, ends, n)
  {
    if n == 0 then 0 else FeedCost(components, ends, n - 1) + ComponentCost(components[n - 1], ends[n - 1])
  }

  /** All the masters of a feed end, and together they cost at most the budget. */
  ghost predicate FeedAffordable(components: seq<Component>, ends: seq<seq<nat>>, budget: nat) {
    FeedEnds(components, ends, |components|) && FeedCost(components, ends, |components|) <= budget
  }

  lemma ComponentCostIsUnique(c: Component, a: seq<nat>, b: seq<nat>)
    requires AllEnd(c, a) && AllEnd(c, b)
    ensures ComponentCost(c, a) == ComponentCost(c, b)
  {
    if Expanded(c) {
      CostIsUnique(c, a, b, |c.rules|);
    }
  }

  lemma {:induction false} FeedCostIsUnique(components: seq<Component>, a: seq<seq<nat>>, b: seq<seq<nat>>, n: nat)
    requires FeedEnds(components, a, n) && FeedEnds(components, b, n)
    ensures FeedCost(components, a, n) == FeedCost(components, b, n)
  {
    if n > 0 {
      FeedCostIsUnique(components, a, b, n - 1);
      ComponentCostIsUnique(components[n - 1], a[n - 1], b[n - 1]);
    }
  }

  lemma {:induction false} FeedCostGrows(components: seq<Component>, ends: seq<seq<nat>>, m: nat, n: nat)
    requires m <= n && FeedEnds(components, ends, n)
    ensures FeedEnds(components, ends, m) && FeedCost(components, ends, m) <= FeedCost(components, ends, n)
    decreases n - m
  {
    if m < n {
      FeedCostGrows(components, ends, m, n - 1);
    }
  }

  lemma FeedEndsMore(components: seq<Component>, ends: seq<seq<nat>>, end: seq<nat>)
    requires FeedEnds(components, ends, |ends|) && |ends| < |components| && AllEnd(components[|ends|], end)
    ensures FeedEnds(components, ends + [end], |ends| + 1)
    ensures FeedCost(components, ends + [end], |ends| + 1) ==
            FeedCost(components, ends, |ends|) + ComponentCost(components[|ends|], end)
  {
    var n := |ends|;
    assert (ends + [end])[n] == end && forall i :: 0 <= i < n ==> (ends + [end])[i] == ends[i];
    assert FeedEnds(components, ends + [end], n);
    FeedCostIsUnique(components, ends + [end], ends, n);
  }

  /** A master that overruns what those before it have left makes the feed unaffordable, whatever the others cost. */
  lemma FeedOverrun(components: seq<Component>, ends: seq<seq<nat>>, budget: nat, left: nat, other: seq<seq<nat>>)
    requires FeedEnds(components, ends, |ends|) && |ends| < |components| && Expanded(components[|ends|])
    requires FeedCost(components, ends, |ends|) + left == budget
    requires forall own :: !Affordable(components[|ends|], own, left)
    ensures !FeedAffordable(components, other, budget)
  {
    var n := |ends|;
    if FeedEnds(components, other, |components|) {
      FeedCostGrows(components, other, n + 1, |components|);
      FeedCostGrows(components, other, n, n + 1);
      FeedCostIsUnique(components, ends, other, n);
      assert AllEnd(components[n], other[n]);
      AffordableIff(components[n], other[n], left);
    }
  }

  // ---- overrides ----

  /** The instants at which other components of the same UID replace the master's instance. */
  function Overridden(components: seq<Component>, uid: string, n: nat): seq<int>
    requires n <= |components|
  {
    if n == 0 then []
    else
      var before, c := Overridden(components, uid, n - 1), components[n - 1];
      if c.Overrides() && c.base.id == uid then before + [c.recurrenceId.value] else before
  }

  lemma {:induction false} OverriddenIff(components: seq<Component>, uid: string, n: nat, tick: int)
    requires n <= |components|
    ensures tick in Overridden(components, uid, n) <==>
            exists j :: 0 <= j < n && components[j].base.id == uid && components[j].recurrenceId == Some(tick)
                        && (components[j].validStart || (components[j].cancelled && !components[j].hasStart))
  {
    if n > 0 {
      OverriddenIff(components, uid, n - 1, tick);
    }
  }

  function MasterOf(components: seq<Component>, windowStart: int, windowEnd: int, i: nat): Master
    requires i < |components|
  {
    Master(components[i], windowStart, windowEnd, Overridden(components, components[i].base.id, |components|))
  }

  /** What one component puts into the calendar, given the contributions its expansion got to. */
  function Block(components: seq<Component>, windowStart: int, windowEnd: int, i: nat, spans: seq<Span>)
    : seq<CalendarEvent>
    requires i < |components|
  {
    var c := components[i];
    if c.cancelled || !c.validStart then []
    else if !c.Recurring() then [c.base]
    else Instances(MasterOf(components, windowStart, windowEnd, i), spans)
  }

  function Blocks(components: seq<Component>, windowStart: int, windowEnd: int, trace: seq<seq<Span>>, n: nat)
    : seq<CalendarEvent>
    requires n <= |trace| <= |components|
  {
    if n == 0 then []
    else
      Blocks(components, windowStart, windowEnd, trace, n - 1)
      + Block(components, windowStart, windowEnd, n - 1, trace[n - 1])
  }

  lemma {:induction false} BlocksAgree(components: seq<Component>, windowStart: int, windowEnd: int,
                                       a: seq<seq<Span>>, b: seq<seq<Span>>, n: nat)
    requires n <= |a| <= |components| && n <= |b| <= |components| && forall i :: 0 <= i < n ==> a[i] == b[i]
    ensures Blocks(components, windowStart, windowEnd, a, n) == Blocks(components, windowStart, windowEnd, b, n)
  {
    if n > 0 {
      BlocksAgree(components, windowStart, windowEnd, a, b, n - 1);
    }
  }

  /** No instance of a master stands at a RECURRENCE-ID that a component of the same UID overrides, not
      even one cancelled there. */
  lemma NoInstanceAtOverride(components: seq<Component>, windowStart: int, windowEnd: int, i: nat, spans: seq<Span>,
                             k: nat, j: nat)
    requires i < |components| && j < |components|
    requires components[j].Overrides() && components[j].base.id == components[i].base.id
    requires k < |Instances(MasterOf(components, windowStart, windowEnd, i), spans)|
    ensures var instances := Instances(MasterOf(components, windowStart, windowEnd, i), spans);
      components[j].recurrenceId != Some(StartTick(instances[k]))
  {
    var m := MasterOf(components, windowStart, windowEnd, i);
    InstancesAreSound(m, spans, k, k);
    OverriddenIff(components, components[i].base.id, |components|, StartTick(Instances(m, spans)[k]));
  }
}
