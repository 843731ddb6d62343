/** src/app/main_loop.cpp: arming deadlines, choosing the poll timeout, and the dispatch pass. */
module MainLoop {
  import opened Wrappers
  import opened DeadlineHistory

  // ---- one iteration as events ----

  function Votes(sources: seq<int>, votes: seq<int>, now: int, n: nat): (events: seq<Event>)
    requires n <= |sources| == |votes|
    ensures |events| == n
  {
    seq(n, i requires 0 <= i < n => Vote(sources[i], now, votes[i]))
  }

  /** The least remaining time after `n` votes, -1 if no vote asked for one. */
  function Asked(history: seq<Event>, sources: seq<int>, votes: seq<int>, now: int, n: nat): int
    requires n <= |sources| == |votes|
  {
    if n == 0 then -1
    else
      var before := Asked(history, sources, votes, now, n - 1);
      var deadline := Now(history + Votes(sources, votes, now, n), sources[n - 1]);
      if deadline.None? then before else Sooner(before, RemainingMs(deadline.value, now))
  }

  function Sooner(timeout: int, remaining: int): int {
    if timeout < 0 || remaining < timeout then remaining else timeout
  }

  /** Pending frame work makes the poll immediate; a blocked flush never lets it spin. */
  function PollTimeout(asked: int, pendingWork: bool, flushBlocked: bool): int {
    var timeout := if pendingWork then 0 else asked;
    if flushBlocked && 0 <= timeout < BLOCKED_FLOOR then BLOCKED_FLOOR else timeout
  }

  predicate Due(history: seq<Event>, source: int, now: int) {
    Now(history, source).Some? && Now(history, source).value <= now
  }

  function Dispatches(woken: seq<int>): (events: seq<Event>)
    ensures |events| == |woken|
  {
    seq(|woken|, i requires 0 <= i < |woken| => Dispatch(woken[i]))
  }

  /** The sources the pass has dispatched after looking at the first `n`. */
  function Woken(history: seq<Event>, sources: seq<int>, fdReady: seq<bool>, latest: seq<seq<int>>, now: int, n: nat)
    : seq<int>
    requires n <= |sources| == |fdReady| == |latest|
  {
    if n == 0 then []
    else
      var before := Woken(history, sources, fdReady, latest, now, n - 1);
      var source := sources[n - 1];
      if (fdReady[n - 1] || Due(history + Dispatches(before), source, now)) && source in latest[n - 1]
      then before + [source] else before
  }

  datatype Outcome = Interrupted | Polled(fdReady: seq<bool>, latest: seq<seq<int>>, after: int)

  /** The sources and their votes, and how the poll ended; `latest` is what the provider answers when
      asked before each dispatch. */
  datatype Iteration = Iteration(sources: seq<int>, votes: seq<int>, now: int, pendingWork: bool, flushBlocked: bool,
                                 outcome: Outcome) {
    predicate Valid() {
      && |votes| == |sources|
      && (outcome.Polled? ==> |outcome.fdReady| == |outcome.latest| == |sources|)
    }

    function Armed(history: seq<Event>): seq<Event>
      requires Valid()
    {
      history + [Roster(sources)] + Votes(sources, votes, now, |sources|)
    }

    function Timeout(history: seq<Event>): int
      requires Valid()
    {
      PollTimeout(Asked(history + [Roster(sources)], sources, votes, now, |sources|), pendingWork, flushBlocked)
    }

    function WokenSources(history: seq<Event>): seq<int>
      requires Valid()
    {
      if outcome.Interrupted? then []
      else Woken(Armed(history), sources, outcome.fdReady, outcome.latest, outcome.after, |sources|)
    }

    function After(history: seq<Event>): seq<Event>
      requires Valid()
    {
      Armed(history) + Dispatches(WokenSources(history))
    }
  }

  // ---- the loop's state ----

  class Loop {
    var deadlines: map<int, int>
    ghost var history: seq<Event>

    ghost predicate Valid()
      reads this
    {
      Agrees(deadlines, history)
    }

    constructor ()
      ensures Valid() && history == []
    {
      deadlines, history := map[], [];
    }

    /** Forgets the deadlines of sources that are gone. */
    method Forget(sources: seq<int>)
      requires Valid()
      modifies this
      ensures Valid() && history == old(history) + [Roster(sources)]
    {
      var left := deadlines.Keys;
      var kept := deadlines;
      while left != {}
        invariant left <= deadlines.Keys && deadlines == old(deadlines) && history == old(history)
        invariant forall s :: Stored(kept, s) == if s in left || s in sources then Stored(deadlines, s) else None
      {
        ghost var member := AnyOf(left);
        var s :| s in left;
        if s !in sources {
          kept := kept - {s};
        }
        left := left - {s};
      }
      AgreesAfter(deadlines, kept, history, Roster(sources));
      deadlines, history := kept, history + [Roster(sources)];
    }

    /** One vote: the earliest request since the last dispatch stands. */
    method Note(source: int, timeout: int, now: int)
      requires Valid()
      modifies this
      ensures Valid() && history == old(history) + [Vote(source, now, timeout)]
    {
      var after := deadlines - {source};
      if timeout >= 0 {
        var requested := now + timeout * TICKS_PER_MS;
        var earliest := if source in deadlines && deadlines[source] < requested then deadlines[source] else requested;
        after := deadlines[source := earliest];
      }
      AgreesAfter(deadlines, after, history, Vote(source, now, timeout));
      deadlines, history := after, history + [Vote(source, now, timeout)];
    }

    /** Takes every source's vote and returns the timeout for the poll. */
    method Arm(sources: seq<int>, votes: seq<int>, now: int, pendingWork: bool, flushBlocked: bool)
      returns (timeout: int)
      requires Valid() && |votes| == |sources|
      modifies this
      ensures Valid() && history == old(history) + [Roster(sources)] + Votes(sources, votes, now, |sources|)
      ensures timeout == PollTimeout(Asked(old(history) + [Roster(sources)], sources, votes, now, |sources|),
                                     pendingWork, flushBlocked)
    {
      Forget(sources);
      ghost var start := history;
      timeout := -1;
      for i := 0 to |sources|
        invariant Valid() && history == start + Votes(sources, votes, now, i)
        invariant timeout == Asked(start, sources, votes, now, i)
      {
        var source := sources[i];
        Note(source, votes[i], now);
        assert Votes(sources, votes, now, i + 1) == Votes(sources, votes, now, i) + [Vote(source, now, votes[i])];
        assert start + Votes(sources, votes, now, i + 1) == history;
        assert Stored(deadlines, source) == Now(history, source);
        if source in deadlines {
          var remaining := RemainingMs(deadlines[source], now);
          timeout := if timeout < 0 || remaining < timeout then remaining else timeout;
        }
      }
      if pendingWork {
        timeout := 0;
      }
      if flushBlocked && timeout >= 0 && timeout < BLOCKED_FLOOR {
        timeout := BLOCKED_FLOOR;
      }
    }

    /** Dispatches what woke, asking the provider again before each. */
    method DispatchPass(sources: seq<int>, fdReady: seq<bool>, latest: seq<seq<int>>, now: int)
      returns (woken: seq<int>)
      requires Valid() && |sources| == |fdReady| == |latest|
      modifies this
      ensures Valid() && history == old(history) + Dispatches(woken)
      ensures woken == Woken(old(history), sources, fdReady, latest, now, |sources|)
    {
      woken := [];
      for i := 0 to |sources|
        invariant Valid() && history == old(history) + Dispatches(woken)
        invariant woken == Woken(old(history), sources, fdReady, latest, now, i)
      {
        var source := sources[i];
        assert Stored(deadlines, source) == Now(history, source);
        var timeoutWake := source in deadlines && now >= deadlines[source];
        if (fdReady[i] || timeoutWake) && source in latest[i] {
          AgreesAfter(deadlines, deadlines - {source}, history, Dispatch(source));
          deadlines := deadlines - {source};
          assert Dispatches(woken + [source]) == Dispatches(woken) + [Dispatch(source)];
          history, woken := history + [Dispatch(source)], woken + [source];
        }
      }
    }

    method Iterate(it: Iteration) returns (timeout: int, woken: seq<int>)
      requires Valid() && it.Valid()
      modifies this
      ensures Valid() && history == it.After(old(history))
      ensures timeout == it.Timeout(old(history)) && woken == it.WokenSources(old(history))
    {
      timeout := Arm(it.sources, it.votes, it.now, it.pendingWork, it.flushBlocked);
      woken := [];
      if it.outcome.Polled? {
        woken := DispatchPass(it.sources, it.outcome.fdReady, it.outcome.latest, it.outcome.after);
      } else {
        assert history + Dispatches([]) == history;
      }
    }
  }
}
