/** src/calendar/ical_parser.cpp: which instances a recurring event has and where they end, in terms of its rules,
    its RDATEs and its duration alone. */
module RecurrenceLaws {
  import opened Wrappers
  import opened CalendarTypes
  import opened Recurrence

  // ---- contributions ----

  /** The master's own start, if it has no rule and the start is not excluded. */
  predicate FromStart(c: Component, t: int, end: int, given: bool) {
    c.rules == [] && !c.startExcluded && t == c.startUnix && end == t + c.duration && !given
  }

  /** The `k`-th occurrence of a rule, before the rule ends and not excluded. */
  predicate FromRule(c: Component, ends: seq<nat>, t: int, end: int, given: bool, i: nat, k: nat) {
    && i < |c.rules| && i < |ends| && c.rules[i].Rule? && k < ends[i]
    && c.rules[i].next(k).Some? && !c.rules[i].next(k).value.excluded && c.rules[i].next(k).value.unix == t
    && end == t + c.duration && !given
  }

  /** An RDATE that is not excluded; a period gives its own end or length. */
  predicate FromRdate(c: Component, t: int, end: int, given: bool, j: nat) {
    && j < |c.rdates| && c.rdates[j].Rdate? && !c.rdates[j].excluded && c.rdates[j].unix == t
    && match c.rdates[j].length
       case Default => end == t + c.duration && !given
       case Until(until) => end == until && given
       case Lasting(seconds) => end == t + seconds && given
  }

  /** The series has a contribution from `t` to `end`; `given` if an RDATE gives the end. */
  ghost predicate Contributes(c: Component, ends: seq<nat>, t: int, end: int, given: bool) {
    || FromStart(c, t, end, given)
    || (exists i: nat, k: nat :: FromRule(c, ends, t, end, given, i, k))
    || exists j: nat :: FromRdate(c, t, end, given, j)
  }

  /** A rule ends at the first call that yields nothing, or an occurrence past the window. */
  lemma RuleEndIff(rule: Rule, k: nat)
    requires rule.Rule?
    ensures Ends(rule, k) <==>
      && (rule.next(k) == None || rule.next(k).value.beyond)
      && forall j: nat :: j < k ==> rule.next(j) != None && !rule.next(j).value.beyond
  {
  }

  /** A series costs a unit for every occurrence its rules yield until they end, that past the window included,
      and one for every RDATE. */
  function Looked(c: Component, ends: seq<nat>, n: nat): nat
    requires n <= |c.rules| && n <= |ends|
  {
    if n == 0 then 0
    else
      Looked(c, ends, n - 1)
      + (match c.rules[n - 1]
         case Broken => 0
         case Rule(next) => ends[n - 1] + if next(ends[n - 1]) == None then 0 else 1)
  }

  lemma {:induction false} CostIs(c: Component, ends: seq<nat>, n: nat)
    requires n <= |c.rules| && n <= |ends|
    ensures RulesCost(c, ends, n) == Looked(c, ends, n)
  {
    if n > 0 {
      CostIs(c, ends, n - 1);
    }
  }

  lemma SeriesAffordableIff(c: Component, ends: seq<nat>, budget: nat)
    requires |c.rules| <= |ends|
    ensures Affordable(c, ends, budget) <==>
            RulesEnd(c, ends, |c.rules|) && Looked(c, ends, |c.rules|) + |c.rdates| <= budget
  {
    CostIs(c, ends, |c.rules|);
  }

  ghost predicate RuleGives(c: Component, rule: Rule, n: nat, span: Span)
    requires rule.Rule?
  {
    exists k :: 0 <= k < n && rule.next(k).Some? && !rule.next(k).value.excluded
                && span == Span(rule.next(k).value.unix, rule.next(k).value.unix + c.duration, false)
  }

  lemma {:induction false} RuleSpansIff(c: Component, rule: Rule, n: nat, span: Span)
    requires rule.Rule?
    ensures span in RuleSpans(c, rule, n) <==> RuleGives(c, rule, n, span)
  {
    if n > 0 {
      RuleSpansIff(c, rule, n - 1, span);
    }
  }

  ghost predicate SomeRuleGives(c: Component, ends: seq<nat>, n: nat, span: Span)
    requires n <= |c.rules| && n <= |ends|
  {
    exists i :: 0 <= i < n && c.rules[i].Rule? && RuleGives(c, c.rules[i], ends[i], span)
  }

  lemma SomeRuleOf(c: Component, ends: seq<nat>, n: nat, span: Span)
    requires 0 < n <= |c.rules| && n <= |ends|
    ensures SomeRuleGives(c, ends, n, span) <==>
            SomeRuleGives(c, ends, n - 1, span) ||
              (c.rules[n - 1].Rule? && RuleGives(c, c.rules[n - 1], ends[n - 1], span))
  {
  }

  lemma BaseSpanIff(c: Component, span: Span)
    ensures span in BaseSpans(c) <==> FromStart(c, span.start, span.end, span.explicitPeriod)
  {
  }

  lemma RulesSpansStep(c: Component, ends: seq<nat>, n: nat, span: Span)
    requires 0 < n <= |c.rules| && n <= |ends|
    ensures span in RulesSpans(c, ends, n) <==>
            || span in RulesSpans(c, ends, n - 1)
            || (c.rules[n - 1].Rule? && span in RuleSpans(c, c.rules[n - 1], ends[n - 1]))
  {
    var last := if c.rules[n - 1].Broken? then [] else RuleSpans(c, c.rules[n - 1], ends[n - 1]);
    InEither(RulesSpans(c, ends, n - 1), last, span);
  }

  lemma {:induction false} RulesSpansIff(c: Component, ends: seq<nat>, n: nat, span: Span)
    requires n <= |c.rules| && n <= |ends|
    ensures span in RulesSpans(c, ends, n) <==> span in BaseSpans(c) || SomeRuleGives(c, ends, n, span)
  {
    if n > 0 {
      RulesSpansIff(c, ends, n - 1, span);
      RulesSpansStep(c, ends, n, span);
      SomeRuleOf(c, ends, n, span);
      if c.rules[n - 1].Rule? {
        RuleSpansIff(c, c.rules[n - 1], ends[n - 1], span);
      }
    }
  }

  lemma RdateGives(c: Component, j: nat, span: Span)
    requires j < |c.rdates| && c.rdates[j].Rdate? && !c.rdates[j].excluded
    ensures FromRdate(c, span.start, span.end, span.explicitPeriod, j) <==> span == RdateSpan(c, c.rdates[j])
  {
  }

  lemma {:induction false} RdateSpansIff(c: Component, n: nat, span: Span)
    requires n <= |c.rdates|
    ensures span in RdateSpans(c, n) <==>
            exists j :: 0 <= j < n && FromRdate(c, span.start, span.end, span.explicitPeriod, j)
  {
    if n > 0 {
      RdateSpansIff(c, n - 1, span);
      if c.rdates[n - 1].Rdate? && !c.rdates[n - 1].excluded {
        RdateGives(c, n - 1, span);
      }
    }
  }

  lemma RuleGivesIff(c: Component, ends: seq<nat>, span: Span, i: nat)
    requires i < |c.rules| && i < |ends| && c.rules[i].Rule?
    ensures RuleGives(c, c.rules[i], ends[i], span) <==>
            exists k: nat :: FromRule(c, ends, span.start, span.end, span.explicitPeriod, i, k)
  {
    if RuleGives(c, c.rules[i], ends[i], span) {
      var k :| 0 <= k < ends[i] && c.rules[i].next(k).Some? && !c.rules[i].next(k).value.excluded
        && span == Span(c.rules[i].next(k).value.unix, c.rules[i].next(k).value.unix + c.duration, false);
      assert FromRule(c, ends, span.start, span.end, span.explicitPeriod, i, k);
    }
  }

  lemma RuleContributes(c: Component, ends: seq<nat>, span: Span)
    requires |c.rules| <= |ends|
    ensures (exists i: nat, k: nat :: FromRule(c, ends, span.start, span.end, span.explicitPeriod, i, k)) ==>
            exists i :: 0 <= i < |c.rules| && c.rules[i].Rule? && RuleGives(c, c.rules[i], ends[i], span)
  {
    if i: nat, k: nat :| FromRule(c, ends, span.start, span.end, span.explicitPeriod, i, k) {
      assert RuleGives(c, c.rules[i], ends[i], span);
    }
  }

  /** What a complete expansion is made of is exactly these contributions. */
  lemma WholeIff(c: Component, ends: seq<nat>, span: Span)
    requires RulesEnd(c, ends, |c.rules|)
    ensures span in Whole(c, ends) <==> Contributes(c, ends, span.start, span.end, span.explicitPeriod)
  {
    RulesSpansIff(c, ends, |c.rules|, span);
    BaseSpanIff(c, span);
    RdateSpansIff(c, |c.rdates|, span);
    forall i | 0 <= i < |c.rules| && c.rules[i].Rule?
      ensures RuleGives(c, c.rules[i], ends[i], span) <==>
              exists k: nat :: FromRule(c, ends, span.start, span.end, span.explicitPeriod, i, k)
    {
      RuleGivesIff(c, ends, span, i);
    }
    RuleContributes(c, ends, span);
  }

  // ---- instances ----

  /** In the window and at no overridden instant. */
  predicate Wanted(m: Master, t: int) {
    m.windowStart <= m.component.place(t) * 1_000_000_000 <= m.windowEnd
    && m.component.place(t) * 1_000_000_000 !in m.exclusions
  }

  /** The instance from `t` to `end`: the component, placed there. */
  predicate Stands(m: Master, e: CalendarEvent, t: int, end: int) {
    e == m.component.base.(start := m.component.place(t), end := m.component.place(end))
  }

  lemma {:induction false} WinnerIsAmong(m: Master, spans: seq<Span>, start: UnixSeconds, n: nat)
    requires n <= |spans| && Winner(m, spans, start, n).Some?
    ensures Winner(m, spans, start, n).value in spans && m.Offers(Winner(m, spans, start, n).value, start)
  {
    if Winner(m, spans, start, n) == Winner(m, spans, start, n - 1) {
      WinnerIsAmong(m, spans, start, n - 1);
    }
  }

  lemma {:induction false} PeriodWins(m: Master, spans: seq<Span>, start: UnixSeconds, n: nat, k: nat)
    requires k < n <= |spans| && m.Offers(spans[k], start) && spans[k].explicitPeriod
    ensures Winner(m, spans, start, n).Some? && Winner(m, spans, start, n).value.explicitPeriod
  {
    if k < n - 1 {
      PeriodWins(m, spans, start, n - 1, k);
    }
  }

  lemma PeriodAtStart(m: Master, ends: seq<nat>, start: UnixSeconds, t: int, end: int)
    requires RulesEnd(m.component, ends, |m.component.rules|)
    requires Contributes(m.component, ends, t, end, true) && Wanted(m, t) && m.component.place(t) == start
    ensures var spans := Whole(m.component, ends); var winner := Winner(m, spans, start, |spans|);
      winner.Some? && winner.value.explicitPeriod
  {
    var spans, span := Whole(m.component, ends), Span(t, end, true);
    WholeIff(m.component, ends, span);
    var k :| 0 <= k < |spans| && spans[k] == span;
    PeriodWins(m, spans, start, |spans|, k);
  }

  /** Every instance of a complete expansion stands on a contribution that is wanted, and ends where that does:
      at the end an RDATE gives, if any RDATE gives one for this start, or else after the duration. */
  lemma InstanceIsContribution(m: Master, ends: seq<nat>, i: nat) returns (t: int, end: int, given: bool)
    requires RulesEnd(m.component, ends, |m.component.rules|)
    requires i < |Instances(m, Whole(m.component, ends))|
    ensures Contributes(m.component, ends, t, end, given) && Wanted(m, t)
    ensures Stands(m, Instances(m, Whole(m.component, ends))[i], t, end)
    ensures forall t', end' ::
      Contributes(m.component, ends, t', end', true) && m.component.place(t') == m.component.place(t) ==> given
    ensures !given ==> end == t + m.component.duration
  {
    var spans := Whole(m.component, ends);
    var start := Starts(m, spans, |spans|)[i];
    WinnerExistsIff(m, spans, start, |spans|);
    WinnerIsAmong(m, spans, start, |spans|);
    var span := Winner(m, spans, start, |spans|).value;
    t, end, given := span.start, span.end, span.explicitPeriod;
    WholeIff(m.component, ends, span);
    forall t', end' | Contributes(m.component, ends, t', end', true) && m.component.place(t') == m.component.place(t)
      ensures given
    {
      PeriodAtStart(m, ends, start, t', end');
    }
    DefaultEnds(m.component, ends, t, end, given);
  }

  lemma DefaultEnds(c: Component, ends: seq<nat>, t: int, end: int, given: bool)
    requires Contributes(c, ends, t, end, given)
    ensures !given ==> end == t + c.duration
  {
  }

  /** Every contribution that is wanted has its instance. */
  lemma ContributionHasInstance(m: Master, ends: seq<nat>, t: int, end: int, given: bool) returns (i: nat)
    requires RulesEnd(m.component, ends, |m.component.rules|)
    requires Contributes(m.component, ends, t, end, given) && Wanted(m, t)
    ensures i < |Instances(m, Whole(m.component, ends))|
    ensures Instances(m, Whole(m.component, ends))[i].start == m.component.place(t)
  {
    var spans, span := Whole(m.component, ends), Span(t, end, given);
    WholeIff(m.component, ends, span);
    var k :| 0 <= k < |spans| && spans[k] == span;
    NoStartIsLost(m, spans, |spans|, k);
    i :| 0 <= i < |Starts(m, spans, |spans|)| && Starts(m, spans, |spans|)[i] == m.component.place(t);
    InstanceStart(m, spans, i);
  }

  /** Where nothing is contributed, as at an excluded occurrence alone, there is no instance. */
  lemma NoContributionNoInstance(m: Master, ends: seq<nat>, start: UnixSeconds, i: nat)
    requires RulesEnd(m.component, ends, |m.component.rules|)
    requires forall t, end, given :: Contributes(m.component, ends, t, end, given) ==> m.component.place(t) != start
    requires i < |Instances(m, Whole(m.component, ends))|
    ensures Instances(m, Whole(m.component, ends))[i].start != start
  {
    var t, end, given := InstanceIsContribution(m, ends, i);
  }

  // ---- a whole feed ----

  /** What one component puts into the calendar: nothing if it is cancelled or has no usable start, itself if it
      does not recur, or its instances. */
  predicate Puts(components: seq<Component>, windowStart: int, windowEnd: int, trace: seq<seq<Span>>, i: nat,
                 e: CalendarEvent)
    requires i < |components| && i < |trace|
  {
    var c := components[i];
    && !c.cancelled && c.validStart
    && if c.rules == [] && c.rdates == [] then e == c.base
       else
         e in Instances(Master(c, windowStart, windowEnd, Overridden(components, c.base.id, |components|)), trace[i])
  }

  lemma BlockIff(components: seq<Component>, windowStart: int, windowEnd: int, trace: seq<seq<Span>>, i: nat,
                 e: CalendarEvent)
    requires i < |trace| <= |components|
    ensures e in Block(components, windowStart, windowEnd, i, trace[i]) <==>
            Puts(components, windowStart, windowEnd, trace, i, e)
  {
  }

  ghost predicate SomePuts(components: seq<Component>, windowStart: int, windowEnd: int, trace: seq<seq<Span>>, n: nat,
                           e: CalendarEvent)
    requires n <= |trace| <= |components|
  {
    exists i :: 0 <= i < n && Puts(components, windowStart, windowEnd, trace, i, e)
  }

  lemma SomePutsOf(components: seq<Component>, windowStart: int, windowEnd: int, trace: seq<seq<Span>>, n: nat,
                   e: CalendarEvent)
    requires 0 < n <= |trace| <= |components|
    ensures SomePuts(components, windowStart, windowEnd, trace, n, e) <==>
            || SomePuts(components, windowStart, windowEnd, trace, n - 1, e)
            || Puts(components, windowStart, windowEnd, trace, n - 1, e)
  {
  }

  /** An event is in the calendar if and only if some component puts it there. */
  lemma {:induction false} FeedIff(components: seq<Component>, windowStart: int, windowEnd: int, trace: seq<seq<Span>>,
                                   n: nat, e: CalendarEvent)
    requires n <= |trace| <= |components|
    ensures e in Blocks(components, windowStart, windowEnd, trace, n) <==>
            SomePuts(components, windowStart, windowEnd, trace, n, e)
  {
    if n > 0 {
      FeedIff(components, windowStart, windowEnd, trace, n - 1, e);
      BlockIff(components, windowStart, windowEnd, trace, n - 1, e);
      SomePutsOf(components, windowStart, windowEnd, trace, n, e);
      InEither(Blocks(components, windowStart, windowEnd, trace, n - 1),
               Block(components, windowStart, windowEnd, n - 1, trace[n - 1]), e);
    }
  }

  lemma InEither<T>(a: seq<T>, b: seq<T>, x: T)
    ensures x in a + b <==> x in a || x in b
  {
  }
}
