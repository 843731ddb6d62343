/** src/calendar/calendar_types.h: the values the calendar modules exchange. */
module CalendarTypes {
  import opened Wrappers

  // std::chrono::system_clock counts nanoseconds.
  const TICKS_PER_SECOND: int := 1_000_000_000

  const INT64_MIN: int := -0x8000_0000_0000_0000
  const INT64_MAX: int := 0x7FFF_FFFF_FFFF_FFFF

  // A Unix time in whole seconds, as the parsers produce and the cache stores it.
  type UnixSeconds = s: int | INT64_MIN <= s <= INT64_MAX witness 0

  /** One concrete event instance. `titleHash` is what std::hash returns for the title, in the
      hexadecimal digits std::format renders it with. */
  datatype CalendarEvent = CalendarEvent(
    id: string,
    title: string,
    titleHash: string,
    location: string,
    url: string,
    webUrl: string,
    start: UnixSeconds,
    end: UnixSeconds,
    allDay: bool,
    reminderLeads: Option<seq<int>>)

  function StartTick(event: CalendarEvent): int { event.start * TICKS_PER_SECOND }

  datatype CalendarSnapshot = CalendarSnapshot(valid: bool, events: seq<CalendarEvent>)

  /** The order CalendarService::rebuildSnapshot leaves the events in. */
  predicate SortedByStart(events: seq<CalendarEvent>) {
    forall i, j :: 0 <= i < j < |events| ==> events[i].start <= events[j].start
  }
}
