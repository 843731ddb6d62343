/** src/app/main_loop.cpp: what the loop guarantees its poll sources over whole runs. */
module DeadlineRuns {
  import opened Wrappers
  import opened DeadlineHistory
  import opened MainLoop

  // ---- one dispatch pass ----

  /** Within a pass a deadline is gone exactly for the sources already dispatched. */
  lemma {:induction false} DueDuringPass(history: seq<Event>, woken: seq<int>, source: int, now: int)
    ensures Due(history + Dispatches(woken), source, now) <==> source !in woken && Due(history, source, now)
    decreases |woken|
  {
    if woken == [] {
      assert history + Dispatches(woken) == history;
    } else {
      var last, front := woken[|woken| - 1], woken[..|woken| - 1];
      DueDuringPass(history, front, source, now);
      assert woken == front + [last];
      assert history + Dispatches(woken) == history + Dispatches(front) + [Dispatch(last)];
      NowAfter(history + Dispatches(front), Dispatch(last), source);
    }
  }

  /** A pass dispatches a source exactly if it was due, or had a ready descriptor, and the provider still
      lists it when its turn comes; whatever the pass has removed by then is not dispatched. */
  lemma {:induction false} WokenIff(history: seq<Event>, sources: seq<int>, fdReady: seq<bool>, latest: seq<seq<int>>,
                                    now: int,
                                    n: nat, source: int)
    requires n <= |sources| == |fdReady| == |latest|
    ensures source in Woken(history, sources, fdReady, latest, now, n) <==>
            exists i :: 0 <= i < n && sources[i] == source && source in latest[i] &&
              (fdReady[i] || Due(history, source, now))
  {
    if n > 0 {
      var before := Woken(history, sources, fdReady, latest, now, n - 1);
      WokenIff(history, sources, fdReady, latest, now, n - 1, source);
      DueDuringPass(history, before, sources[n - 1], now);
    }
  }

  // ---- the poll timeout ----

  /** However often a source votes, the timeout covers the deadline it ends up with. */
  lemma {:induction false} AskedCovers(history: seq<Event>, sources: seq<int>, votes: seq<int>, now: int, n: nat,
                                       source: int)
    requires n <= |sources| == |votes| && source in sources[..n]
    requires Now(history + Votes(sources, votes, now, n), source).Some?
    ensures var deadline := Now(history + Votes(sources, votes, now, n), source).value;
      0 <= Asked(history, sources, votes, now, n) <= RemainingMs(deadline, now)
  {
    var last := Vote(sources[n - 1], now, votes[n - 1]);
    assert history + Votes(sources, votes, now, n) == history + Votes(sources, votes, now, n - 1) + [last];
    NowAfter(history + Votes(sources, votes, now, n - 1), last, source);
    if sources[n - 1] != source {
      assert sources[..n] == sources[..n - 1] + [sources[n - 1]];
      AskedCovers(history, sources, votes, now, n - 1, source);
    }
  }

  /** A poll that ends within its timeout ends before any deadline of a listed source has been missed;
      only a blocked flush may hold it longer, and then for 16 milliseconds at most. */
  lemma PollEndsInTime(it: Iteration, history: seq<Event>, source: int, ended: int)
    requires it.Valid() && source in it.sources && Now(it.Armed(history), source).Some?
    requires ended <= it.now + it.Timeout(history) * TICKS_PER_MS
    ensures 0 <= it.Timeout(history)
    ensures var deadline := Now(it.Armed(history), source).value;
      || ended <= (if it.now < deadline then deadline else it.now)
      || (it.flushBlocked && ended <= it.now + BLOCKED_FLOOR * TICKS_PER_MS)
  {
    assert it.sources[..|it.sources|] == it.sources;
    AskedCovers(history + [Roster(it.sources)], it.sources, it.votes, it.now, |it.sources|, source);
    RemainingIsSafe(Now(it.Armed(history), source).value, it.now);
  }

  /** The deadline the source at index `i` has right after its vote. */
  function Armed(history: seq<Event>, sources: seq<int>, votes: seq<int>, now: int, i: nat): Option<int>
    requires i < |sources| == |votes|
  {
    Now(history + Votes(sources, votes, now, i + 1), sources[i])
  }

  predicate IsArmed(history: seq<Event>, sources: seq<int>, votes: seq<int>, now: int, i: nat)
    requires i < |sources| == |votes|
  {
    Armed(history, sources, votes, now, i).Some?
  }

  predicate NoneArmed(history: seq<Event>, sources: seq<int>, votes: seq<int>, now: int, n: nat)
    requires n <= |sources| == |votes|
  {
    forall i :: 0 <= i < n ==> !IsArmed(history, sources, votes, now, i)
  }

  /** The deadline of `i` leaves as little time as that of any of the first `n`. */
  predicate IsNearest(history: seq<Event>, sources: seq<int>, votes: seq<int>, now: int, n: nat, i: nat)
    requires i < n <= |sources| == |votes|
  {
    IsArmed(history, sources, votes, now, i) &&
    forall j :: 0 <= j < n && IsArmed(history, sources, votes, now, j) ==>
      RemainingMs(Armed(history, sources, votes, now, i).value, now)
      <= RemainingMs(Armed(history, sources, votes, now, j).value, now)
  }

  lemma {:induction false} AskedIsNearest(history: seq<Event>, sources: seq<int>, votes: seq<int>, now: int, n: nat)
    returns (i: nat)
    requires n <= |sources| == |votes|
    ensures NoneArmed(history, sources, votes, now, n) ==> Asked(history, sources, votes, now, n) == -1
    ensures !NoneArmed(history, sources, votes, now, n) ==>
              && i < n && IsNearest(history, sources, votes, now, n, i)
              && Asked(history, sources, votes, now, n) ==
                RemainingMs(Armed(history, sources, votes, now, i).value, now)
  {
    i := 0;
    if n > 0 {
      i := AskedIsNearest(history, sources, votes, now, n - 1);
      assert IsArmed(history, sources, votes, now, n - 1) ==> !NoneArmed(history, sources, votes, now, n);
      if Asked(history, sources, votes, now, n) != Asked(history, sources, votes, now, n - 1)
         || NoneArmed(history, sources, votes, now, n - 1)
      {
        i := n - 1;
      }
    }
  }

  /** The timeout: nothing with pending work, no limit with no deadline, and otherwise the time left to the
      nearest deadline; a blocked flush raises it to 16 milliseconds, but sets no limit where there is none. */
  lemma TimeoutIs(it: Iteration, history: seq<Event>) returns (i: nat)
    requires it.Valid()
    ensures var start, n := history + [Roster(it.sources)], |it.sources|;
      && (it.pendingWork ==> it.Timeout(history) == if it.flushBlocked then 16 else 0)
      && (!it.pendingWork && NoneArmed(start, it.sources, it.votes, it.now, n) ==> it.Timeout(history) == -1)
      && (!it.pendingWork && !NoneArmed(start, it.sources, it.votes, it.now, n) ==>
            && i < n && IsNearest(start, it.sources, it.votes, it.now, n, i)
            && var left := RemainingMs(Armed(start, it.sources, it.votes, it.now, i).value, it.now);
               it.Timeout(history) == if it.flushBlocked && left < 16 then 16 else left)
  {
    i := AskedIsNearest(history + [Roster(it.sources)], it.sources, it.votes, it.now, |it.sources|);
  }

  predicate ListedOnce(sources: seq<int>) {
    forall i, j :: 0 <= i < j < |sources| ==> sources[i] != sources[j]
  }

  /** As long as no source is listed twice, the votes that follow leave its deadline alone, so the nearest
      deadline is the nearest of those the poll begins with. */
  lemma {:induction false} VotesLeaveOthers(history: seq<Event>, sources: seq<int>, votes: seq<int>, now: int, i: nat,
                                            n: nat)
    requires i < n <= |sources| == |votes| && ListedOnce(sources)
    ensures Now(history + Votes(sources, votes, now, n), sources[i]) == Armed(history, sources, votes, now, i)
  {
    if i + 1 < n {
      var last := Vote(sources[n - 1], now, votes[n - 1]);
      VotesLeaveOthers(history, sources, votes, now, i, n - 1);
      assert history + Votes(sources, votes, now, n) == history + Votes(sources, votes, now, n - 1) + [last];
      NowAfter(history + Votes(sources, votes, now, n - 1), last, sources[i]);
    }
  }

  /** Of sources listed once, the timeout of a poll without pending work or a blocked flush is the time left to
      the nearest deadline of any of them, and there is no limit if and only if none has a deadline. */
  lemma TimeoutOfDeadlines(it: Iteration, history: seq<Event>) returns (i: nat)
    requires it.Valid() && ListedOnce(it.sources) && !it.pendingWork && !it.flushBlocked
    ensures it.Timeout(history) == -1 <==> forall source :: source in it.sources ==>
            Now(it.Armed(history), source).None?
    ensures it.Timeout(history) != -1 ==>
              && i < |it.sources| && Now(it.Armed(history), it.sources[i]).Some?
              && it.Timeout(history) == RemainingMs(Now(it.Armed(history), it.sources[i]).value, it.now)
              && forall source :: source in it.sources && Now(it.Armed(history), source).Some? ==>
                   it.Timeout(history) <= RemainingMs(Now(it.Armed(history), source).value, it.now)
  {
    var start := history + [Roster(it.sources)];
    i := TimeoutIs(it, history);
    forall j | 0 <= j < |it.sources|
      ensures Now(it.Armed(history), it.sources[j]) == Armed(start, it.sources, it.votes, it.now, j)
      ensures IsArmed(start, it.sources, it.votes, it.now, j) <==> Now(it.Armed(history), it.sources[j]).Some?
    {
      VotesLeaveOthers(start, it.sources, it.votes, it.now, j, |it.sources|);
    }
  }

  // ---- whole runs ----

  predicate AllValid(its: seq<Iteration>) {
    forall k :: 0 <= k < |its| ==> its[k].Valid()
  }

  function HistoryBefore(its: seq<Iteration>, k: nat): seq<Event>
    requires AllValid(its) && k <= |its|
  {
    if k == 0 then [] else its[k - 1].After(HistoryBefore(its, k - 1))
  }

  predicate DispatchedIn(its: seq<Iteration>, k: nat, source: int)
    requires AllValid(its) && k < |its|
  {
    source in its[k].WokenSources(HistoryBefore(its, k))
  }

  /** The source is listed and asks for a wake in every iteration of the stretch. */
  predicate KeepsAsking(its: seq<Iteration>, a: nat, b: nat, source: int)
    requires AllValid(its) && b < |its|
  {
    forall k :: a <= k <= b ==> Asks(its[k], source)
  }

  predicate Asks(it: Iteration, source: int)
    requires it.Valid()
  {
    source in it.sources && forall m :: 0 <= m < |it.sources| && it.sources[m] == source ==> 0 <= it.votes[m]
  }

  ghost predicate NoReset(events: seq<Event>, source: int) {
    forall i :: 0 <= i < |events| ==> !Resets(events[i], source)
  }

  lemma Extends(history: seq<Event>, events: seq<Event>, source: int)
    requires Now(history, source).Some? && NoReset(events, source)
    ensures Now(history + events, source).Some? && Now(history + events, source).value <= Now(history, source).value
  {
    var longer := history + events;
    SamePast(longer, history, source, |history|);
    forall i | |history| <= i < |longer| ensures !Resets(longer[i], source) {
      assert longer[i] == events[i - |history|];
    }
    NeverLater(longer, source, |history|, |longer|);
  }

  function Arming(it: Iteration): seq<Event>
    requires it.Valid()
  {
    [Roster(it.sources)] + Votes(it.sources, it.votes, it.now, |it.sources|)
  }

  lemma AskingDoesNotReset(it: Iteration, source: int)
    requires it.Valid() && Asks(it, source)
    ensures NoReset(Arming(it), source)
  {
  }

  /** A vote bounds the deadline from the moment it is taken. */
  lemma VoteBounds(it: Iteration, history: seq<Event>, i: nat, source: int)
    requires it.Valid() && Asks(it, source) && i < |it.sources| && it.sources[i] == source
    ensures Now(it.Armed(history), source).Some?
    ensures Now(it.Armed(history), source).value <= it.now + it.votes[i] * TICKS_PER_MS
  {
    var armed := it.Armed(history);
    assert armed == history + Arming(it);
    AskingDoesNotReset(it, source);
    var at := |history| + 1 + i;
    assert armed[at] == Vote(source, it.now, it.votes[i]);
    forall k | at <= k < |armed| ensures !Resets(armed[k], source) {
      assert armed[k] == Arming(it)[k - |history|];
    }
    NeverLater(armed, source, at + 1, |armed|);
  }

  lemma StepStaysArmed(it: Iteration, next: Iteration, history: seq<Event>, source: int)
    requires it.Valid() && next.Valid() && Asks(next, source)
    requires Now(it.Armed(history), source).Some? && source !in it.WokenSources(history)
    ensures Now(next.Armed(it.After(history)), source).Some?
    ensures Now(next.Armed(it.After(history)), source).value <= Now(it.Armed(history), source).value
  {
    var woken := it.WokenSources(history);
    AskingDoesNotReset(next, source);
    Extends(it.Armed(history), Dispatches(woken), source);
    Extends(it.After(history), Arming(next), source);
    assert next.Armed(it.After(history)) == it.After(history) + Arming(next);
  }

  /** After the votes of iteration `k` the source has a deadline no later than `bound`. */
  predicate ArmedBy(its: seq<Iteration>, k: nat, source: int, bound: int)
    requires AllValid(its) && k < |its|
  {
    var deadline := Now(its[k].Armed(HistoryBefore(its, k)), source);
    deadline.Some? && deadline.value <= bound
  }

  lemma NextArmedBy(its: seq<Iteration>, k: nat, source: int, bound: int)
    requires AllValid(its) && k + 1 < |its| && Asks(its[k + 1], source)
    requires ArmedBy(its, k, source, bound) && !DispatchedIn(its, k, source)
    ensures ArmedBy(its, k + 1, source, bound)
  {
    StepStaysArmed(its[k], its[k + 1], HistoryBefore(its, k), source);
  }

  predicate Passed(its: seq<Iteration>, k: nat, source: int)
    requires AllValid(its) && k < |its|
  {
    !DispatchedIn(its, k, source)
  }

  lemma {:induction false} StaysArmed(its: seq<Iteration>, a: nat, b: nat, source: int, bound: int)
    requires AllValid(its) && a <= b < |its| && KeepsAsking(its, a, b, source)
    requires ArmedBy(its, a, source, bound)
    requires forall k :: a <= k < b ==> Passed(its, k, source)
    ensures ArmedBy(its, b, source, bound)
    decreases b - a
  {
    if a < b {
      AsksUntil(its, a, b, source);
      StaysArmed(its, a, b - 1, source, bound);
      assert Passed(its, b - 1, source);
      NextArmedBy(its, b - 1, source, bound);
    }
  }

  lemma AsksUntil(its: seq<Iteration>, a: nat, b: nat, source: int)
    requires AllValid(its) && a < b < |its| && KeepsAsking(its, a, b, source)
    ensures KeepsAsking(its, a, b - 1, source) && Asks(its[b], source)
  {
  }

  /** A source that asks to be woken and keeps asking is dispatched by the first dispatch pass at or after
      the time it asked for, however many interrupted polls, other votes and reloads come between. */
  lemma VoteIsAnswered(its: seq<Iteration>, a: nat, b: nat, i: nat, j: nat, source: int) returns (k: nat)
    requires AllValid(its) && a <= b < |its| && KeepsAsking(its, a, b, source)
    requires i < |its[a].sources| && its[a].sources[i] == source
    requires its[b].outcome.Polled? && its[a].now + its[a].votes[i] * TICKS_PER_MS <= its[b].outcome.after
    requires j < |its[b].sources| && its[b].sources[j] == source && source in its[b].outcome.latest[j]
    ensures a <= k <= b && DispatchedIn(its, k, source)
  {
    if k' :| a <= k' < b && DispatchedIn(its, k', source) {
      return k';
    }
    assert Asks(its[a], source);
    VoteBounds(its[a], HistoryBefore(its, a), i, source);
    StaysArmed(its, a, b, source, its[a].now + its[a].votes[i] * TICKS_PER_MS);
    var it := its[b];
    var armed := it.Armed(HistoryBefore(its, b));
    WokenIff(armed, it.sources, it.outcome.fdReady, it.outcome.latest, it.outcome.after, |it.sources|, source);
    assert Due(armed, source, it.outcome.after);
    return b;
  }
}
