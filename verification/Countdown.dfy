/** src/calendar/calendar_reminders.cpp: the "starts in N min" label and the instants it changes at. */
module Countdown {
  import opened Wrappers
  import opened CalendarTypes

  const MINUTE: int := 60 * TICKS_PER_SECOND
  const COUNTDOWN_WINDOW_MINUTES: int := 60

  /** Whole minutes from `now` to `start`, rounded up. */
  function CountdownMinutes(start: int, now: int): (minutes: int) {
    var remaining := start - now;
    if remaining <= 0 then 0 else (remaining + MINUTE - 1) / MINUTE
  }

  function CountdownNextChange(start: int, now: int): (next: Option<int>) {
    var shown := CountdownMinutes(start, now);
    if shown <= 0 then None
    else if shown > COUNTDOWN_WINDOW_MINUTES then Some(start - COUNTDOWN_WINDOW_MINUTES * MINUTE)
    else Some(start - (shown - 1) * MINUTE)
  }

  /** The label is the least number of whole minutes that still reaches the start. */
  lemma LabelIsCeiling(start: int, now: int)
    ensures
      var minutes := CountdownMinutes(start, now);
      if now >= start then minutes == 0 else (minutes - 1) * MINUTE < start - now <= minutes * MINUTE
  {
  }

  /** The next change is strictly ahead, and there is none exactly when the event has started. */
  lemma NextChangeIsAhead(start: int, now: int)
    ensures CountdownNextChange(start, now).None? <==> now >= start
    ensures CountdownNextChange(start, now).Some? ==> now < CountdownNextChange(start, now).value <= start
  {
    LabelIsCeiling(start, now);
  }

  /** Inside the window the label holds until the next change and drops by exactly one there;
      outside it, the label stays above the window and lands on its edge. */
  lemma LabelStepsAtNextChange(start: int, now: int, t: int)
    requires now < start
    requires now <= t <= CountdownNextChange(start, now).value
    ensures
      var shown := CountdownMinutes(start, now);
      var next := CountdownNextChange(start, now).value;
      if shown <= COUNTDOWN_WINDOW_MINUTES then CountdownMinutes(start, t) == (if t < next then shown else shown - 1)
      else if t < next then CountdownMinutes(start, t) > COUNTDOWN_WINDOW_MINUTES
      else CountdownMinutes(start, t) == COUNTDOWN_WINDOW_MINUTES
  {
    LabelIsCeiling(start, now);
    LabelIsCeiling(start, t);
  }

  /** How many label changes are left when each is observed at its own instant. */
  function RewritesLeft(start: int, now: int): (n: nat)
    decreases if now < start then start - now else 0
  {
    NextChangeIsAhead(start, now);
    match CountdownNextChange(start, now)
    case None => 0
    case Some(next) => 1 + RewritesLeft(start, next)
  }

  /** A reminder is rewritten at most 61 times before it settles on "starting now". */
  lemma {:induction false} RewritesAreBounded(start: int, now: int)
    ensures RewritesLeft(start, now)
         == var minutes := CountdownMinutes(start, now);
            if minutes <= COUNTDOWN_WINDOW_MINUTES then minutes else COUNTDOWN_WINDOW_MINUTES + 1
    decreases if now < start then start - now else 0
  {
    NextChangeIsAhead(start, now);
    if now < start {
      var next := CountdownNextChange(start, now).value;
      LabelStepsAtNextChange(start, now, next);
      LabelIsCeiling(start, now);
      RewritesAreBounded(start, next);
    }
  }
}
