/** src/app/main_loop.cpp: what the stored deadlines of the poll sources mean. */
module DeadlineHistory {
  import opened Wrappers

  // Ticks of the steady clock are nanoseconds, votes are milliseconds.
  const TICKS_PER_MS := 1_000_000
  const INT_MAX := 0x7FFF_FFFF
  const BLOCKED_FLOOR := 16

  /** What happens to the poll sources, in order. */
  datatype Event =
    | Roster(live: seq<int>)
    | Vote(source: int, now: int, timeout: int)
    | Dispatch(source: int)

  function Earlier(a: Option<int>, b: int): int {
    if a.Some? && a.value < b then a.value else b
  }

  /** The event ends whatever deadline the source had. */
  predicate Resets(e: Event, source: int) {
    match e
    case Roster(live) => source !in live
    case Vote(s, _, timeout) => s == source && timeout < 0
    case Dispatch(s) => s == source
  }

  predicate Requests(e: Event, source: int) { e.Vote? && e.source == source && 0 <= e.timeout }

  function Requested(e: Event): int
    requires e.Vote?
  {
    e.now + e.timeout * TICKS_PER_MS
  }

  /** The deadline of a source after the first `n` events. */
  function DeadlineOf(history: seq<Event>, source: int, n: nat): Option<int>
    requires n <= |history|
  {
    if n == 0 || Resets(history[n - 1], source) then None
    else if Requests(history[n - 1], source) then
      Some(Earlier(DeadlineOf(history, source, n - 1), Requested(history[n - 1])))
    else DeadlineOf(history, source, n - 1)
  }

  /** Where the votes that still count begin. */
  function SinceReset(history: seq<Event>, source: int, n: nat): (from: nat)
    requires n <= |history|
    ensures from <= n
  {
    if n == 0 then 0 else if Resets(history[n - 1], source) then n else SinceReset(history, source, n - 1)
  }

  /** `earliest` is the least time requested by the votes of the source in [from, to), if there is any. */
  ghost predicate IsEarliest(history: seq<Event>, source: int, from: nat, to: nat, earliest: Option<int>)
    requires from <= to <= |history|
  {
    && (earliest.Some? <==> exists i :: from <= i < to && Requests(history[i], source))
    && (earliest.Some? ==>
          && (exists i :: from <= i < to && Requests(history[i], source) && Requested(history[i]) == earliest.value)
          && forall i :: from <= i < to && Requests(history[i], source) ==> earliest.value <= Requested(history[i]))
  }

  lemma EarliestGrows(history: seq<Event>, source: int, from: nat, n: nat, before: Option<int>)
    requires from <= n < |history| && IsEarliest(history, source, from, n, before) && Requests(history[n], source)
    ensures IsEarliest(history, source, from, n + 1, Some(Earlier(before, Requested(history[n]))))
  {
    if before.Some? && before.value < Requested(history[n]) {
      var i :| from <= i < n && Requests(history[i], source) && Requested(history[i]) == before.value;
    }
  }

  lemma EarliestStays(history: seq<Event>, source: int, from: nat, n: nat, before: Option<int>)
    requires from <= n < |history| && IsEarliest(history, source, from, n, before) && !Requests(history[n], source)
    ensures IsEarliest(history, source, from, n + 1, before)
  {
    if before.Some? {
      var i :| from <= i < n && Requests(history[i], source) && Requested(history[i]) == before.value;
    }
  }

  /** The deadline of a source is the earliest time it has requested since its last dispatch, negative
      vote or absence. */
  lemma {:induction false} DeadlineIsEarliest(history: seq<Event>, source: int, n: nat)
    requires n <= |history|
    ensures IsEarliest(history, source, SinceReset(history, source, n), n, DeadlineOf(history, source, n))
  {
    if n > 0 && !Resets(history[n - 1], source) {
      DeadlineIsEarliest(history, source, n - 1);
      if Requests(history[n - 1], source) {
        EarliestGrows(history, source, SinceReset(history, source, n - 1), n - 1, DeadlineOf(history, source, n - 1));
      } else {
        EarliestStays(history, source, SinceReset(history, source, n - 1), n - 1, DeadlineOf(history, source, n - 1));
      }
    }
  }

  /** A deadline never moves later: it only comes nearer until something resets it. */
  lemma {:induction false} NeverLater(history: seq<Event>, source: int, m: nat, n: nat)
    requires m <= n <= |history| && DeadlineOf(history, source, m).Some?
    requires forall i :: m <= i < n ==> !Resets(history[i], source)
    ensures DeadlineOf(history, source, n).Some?
    ensures DeadlineOf(history, source, n).value <= DeadlineOf(history, source, m).value
    decreases n - m
  {
    if m < n {
      NeverLater(history, source, m, n - 1);
    }
  }

  lemma {:induction false} SamePast(a: seq<Event>, b: seq<Event>, source: int, n: nat)
    requires n <= |a| && n <= |b| && forall i :: 0 <= i < n ==> a[i] == b[i]
    ensures DeadlineOf(a, source, n) == DeadlineOf(b, source, n)
  {
    if n > 0 {
      SamePast(a, b, source, n - 1);
    }
  }

  function Now(history: seq<Event>, source: int): Option<int> {
    DeadlineOf(history, source, |history|)
  }

  /** The source asked at `i`, and since then it has been listed whenever the sources were, has not been dispatched
      and has not voted for no deadline. */
  predicate StandsSince(history: seq<Event>, source: int, i: nat) {
    && i < |history| && history[i].Vote? && history[i].source == source && 0 <= history[i].timeout
    && forall j :: i < j < |history| ==>
         && (history[j].Roster? ==> source in history[j].live)
         && (history[j].Vote? && history[j].source == source ==> 0 <= history[j].timeout)
         && (history[j].Dispatch? ==> history[j].source != source)
  }

  lemma {:induction false} SinceResetIff(history: seq<Event>, source: int, n: nat, i: nat)
    requires i < n <= |history|
    ensures SinceReset(history, source, n) <= i <==> forall j :: i <= j < n ==> !Resets(history[j], source)
  {
    if i < n - 1 && !Resets(history[n - 1], source) {
      SinceResetIff(history, source, n - 1, i);
    }
  }

  lemma StandsIff(history: seq<Event>, source: int, i: nat)
    ensures StandsSince(history, source, i) <==>
            SinceReset(history, source, |history|) <= i < |history| && Requests(history[i], source)
  {
    if i < |history| {
      SinceResetIff(history, source, |history|, i);
      assert Requests(history[i], source) ==> !Resets(history[i], source);
    }
  }

  /** There is a deadline exactly if a request stands, and it is the earliest time that any such request asks for. */
  lemma DeadlineStands(history: seq<Event>, source: int)
    ensures Now(history, source).Some? <==> exists i: nat :: StandsSince(history, source, i)
    ensures Now(history, source).Some? ==>
              && (exists i: nat :: StandsSince(history, source, i)
                                   && Now(history, source).value == history[i].now + history[i].timeout * 1_000_000)
              && forall i: nat :: StandsSince(history, source, i) ==>
                   Now(history, source).value <= history[i].now + history[i].timeout * 1_000_000
  {
    var from, n := SinceReset(history, source, |history|), |history|;
    DeadlineIsEarliest(history, source, n);
    forall i: nat ensures StandsSince(history, source, i) <==> from <= i < n && Requests(history[i], source) {
      StandsIff(history, source, i);
    }
    if Now(history, source).Some? {
      var i :| from <= i < n && Requests(history[i], source) && Requested(history[i]) == Now(history, source).value;
      assert StandsSince(history, source, i);
    }
    if i: nat :| StandsSince(history, source, i) {
      assert Requests(history[i], source);
    }
  }

  lemma NowAfter(history: seq<Event>, e: Event, source: int)
    ensures Now(history + [e], source) ==
            if Resets(e, source) then None
            else if Requests(e, source) then Some(Earlier(Now(history, source), Requested(e)))
            else Now(history, source)
  {
    SamePast(history + [e], history, source, |history|);
  }

  /** The map holds exactly the deadlines the history gives. */
  ghost predicate Agrees(deadlines: map<int, int>, history: seq<Event>) {
    forall s :: Stored(deadlines, s) == Now(history, s)
  }

  function Stored(deadlines: map<int, int>, source: int): Option<int> {
    if source in deadlines then Some(deadlines[source]) else None
  }

  lemma AgreesAfter(deadlines: map<int, int>, after: map<int, int>, history: seq<Event>, e: Event)
    requires Agrees(deadlines, history)
    requires forall s :: Stored(after, s) ==
               if Resets(e, s) then None
               else if Requests(e, s) then Some(Earlier(Stored(deadlines, s), Requested(e)))
               else Stored(deadlines, s)
    ensures Agrees(after, history + [e])
  {
    forall s ensures Stored(after, s) == Now(history + [e], s) {
      NowAfter(history, e, s);
      assert Stored(deadlines, s) == Now(history, s);
    }
  }

  // ---- how long to sleep ----

  /** std::chrono::duration_cast to milliseconds: towards zero. */
  function TruncatedMs(ticks: int): int {
    if ticks >= 0 then ticks / TICKS_PER_MS else -(-ticks / TICKS_PER_MS)
  }

  function RemainingMs(deadline: int, now: int): (ms: nat)
    ensures ms <= INT_MAX
  {
    var remaining := TruncatedMs(deadline - now);
    if remaining < 0 then 0 else if remaining < INT_MAX then remaining else INT_MAX
  }

  /** Sleeping for the remaining time never goes past the deadline, and stops less than a millisecond
      short of it unless the timeout saturates. */
  lemma RemainingIsSafe(deadline: int, now: int)
    ensures now + RemainingMs(deadline, now) * TICKS_PER_MS <= if now < deadline then deadline else now
    ensures RemainingMs(deadline, now) < INT_MAX ==> deadline < now + (RemainingMs(deadline, now) + 1) * TICKS_PER_MS
  {
    var ticks := deadline - now;
    if ticks >= 0 {
      assert ticks == (ticks / TICKS_PER_MS) * TICKS_PER_MS + ticks % TICKS_PER_MS;
    }
  }
}
