/** src/calendar/calendar_reminders.cpp: the identity of a reminder, kept as one string. */
module ReminderKeys {
  import opened Wrappers
  import opened CalendarTypes
  import opened DecimalText

  // Lead recorded in a key when the reminder came from the configured default.
  const DEFAULT_LEAD_SENTINEL: int := -1

  function FallbackId(event: CalendarEvent): string { "h" + event.titleHash }

  /** The identity a key is built from: the feed's UID, or the hashed title without one. */
  function EventId(event: CalendarEvent): string {
    if event.id == "" then FallbackId(event) else event.id
  }

  function KeyOf(id: string, start: int, leadKey: int): string {
    id + "|" + Decimal(start) + "|" + Decimal(leadKey)
  }

  function ReminderKey(event: CalendarEvent, leadKey: int): string {
    KeyOf(EventId(event), event.start, leadKey)
  }

  /** std::string_view::rfind: the last `c` at an index below `limit`. */
  function RFind(s: string, c: char, limit: nat): (r: Option<nat>)
    requires limit <= |s|
    ensures r.Some? ==> r.value < limit
  {
    if limit == 0 then None
    else if s[limit - 1] == c then Some(limit - 1)
    else RFind(s, c, limit - 1)
  }

  /** Start instant embedded in a reminder key, or None when the key is malformed. */
  function ReminderKeyStart(key: string): (r: Option<UnixSeconds>) {
    match RFind(key, '|', |key|)
    case None => None
    case Some(last) =>
      if last == 0 then None
      else
        match RFind(key, '|', last)
        case None => None
        case Some(first) => FromChars(key[first + 1..last])
  }

  lemma RFindAt(s: string, c: char, limit: nat, at: nat)
    requires at < limit <= |s| && s[at] == c
    requires forall i :: at < i < limit ==> s[i] != c
    ensures RFind(s, c, limit) == Some(at)
  {
  }

  /** Where the two separators of a key sit, for every id, '|' inside it or not. */
  lemma KeyBars(id: string, start: int, leadKey: int)
    ensures
      var key := KeyOf(id, start, leadKey);
      var last := |id| + 1 + |Decimal(start)|;
      && last < |key|
      && RFind(key, '|', |key|) == Some(last) && RFind(key, '|', last) == Some(|id|)
      && key[..|id|] == id && key[|id| + 1..last] == Decimal(start) && key[last + 1..] == Decimal(leadKey)
  {
    var s, l := Decimal(start), Decimal(leadKey);
    var key := KeyOf(id, start, leadKey);
    var last := |id| + 1 + |s|;
    assert key == id + "|" + s + "|" + l;
    assert forall i :: last < i < |key| ==> key[i] == l[i - last - 1];
    assert forall i :: |id| < i < last ==> key[i] == s[i - |id| - 1];
    RFindAt(key, '|', |key|, last);
    RFindAt(key, '|', last, |id|);
  }

  lemma StartBetweenBars(key: string, first: nat, last: nat)
    requires first < last < |key|
    requires RFind(key, '|', |key|) == Some(last) && RFind(key, '|', last) == Some(first)
    ensures ReminderKeyStart(key) == FromChars(key[first + 1..last])
  {
  }

  /** Decoding an encoded key returns the start it was built from, for every id, start and lead. */
  lemma KeyStartRoundTrip(id: string, start: UnixSeconds, leadKey: int)
    ensures ReminderKeyStart(KeyOf(id, start, leadKey)) == Some(start)
  {
    KeyBars(id, start, leadKey);
    var text := Decimal(start);
    StartBetweenBars(KeyOf(id, start, leadKey), |id|, |id| + 1 + |text|);
    FromCharsOfDecimal(start);
  }

  /** A key names one (id, start, lead) triple only. */
  lemma KeyInjective(id1: string, start1: int, lead1: int, id2: string, start2: int, lead2: int)
    ensures KeyOf(id1, start1, lead1) == KeyOf(id2, start2, lead2) <==> id1 == id2 && start1 == start2 && lead1 == lead2
  {
    if KeyOf(id1, start1, lead1) == KeyOf(id2, start2, lead2) {
      KeyBars(id1, start1, lead1);
      KeyBars(id2, start2, lead2);
      DecimalInjective(start1, start2);
      DecimalInjective(lead1, lead2);
    }
  }

  lemma ReminderKeyStartOf(event: CalendarEvent, leadKey: int)
    ensures ReminderKeyStart(ReminderKey(event, leadKey)) == Some(event.start)
  {
    KeyStartRoundTrip(EventId(event), event.start, leadKey);
  }

  // ---- any text as a key ----

  predicate Parts(key: string, front: string, middle: string, end: string) {
    key == front + "|" + middle + "|" + end && '|' !in middle && '|' !in end
  }

  lemma PartsOf(key: string, front: string, middle: string, end: string)
    requires Parts(key, front, middle, end)
    ensures ReminderKeyStart(key) == FromChars(middle)
  {
    var first, last := |front|, |front| + 1 + |middle|;
    assert forall i :: last < i < |key| ==> key[i] == end[i - last - 1];
    assert forall i :: first < i < last ==> key[i] == middle[i - first - 1];
    RFindAt(key, '|', |key|, last);
    RFindAt(key, '|', last, first);
    StartBetweenBars(key, first, last);
    assert key[first + 1..last] == middle;
  }

  lemma {:induction false} RFindIsLast(s: string, c: char, limit: nat)
    requires limit <= |s|
    ensures match RFind(s, c, limit)
      case None => c !in s[..limit]
      case Some(at) => at < limit && s[at] == c && c !in s[at + 1..limit]
  {
    if limit > 0 && s[limit - 1] != c {
      RFindIsLast(s, c, limit - 1);
      var found := RFind(s, c, limit);
      if found.Some? {
        assert s[found.value + 1..limit] == s[found.value + 1..limit - 1] + [s[limit - 1]];
      } else {
        assert s[..limit] == s[..limit - 1] + [s[limit - 1]];
      }
    }
  }

  lemma BarsSplit(key: string, first: nat, last: nat)
    requires first < last < |key| && key[first] == key[last] == '|'
    requires '|' !in key[first + 1..last] && '|' !in key[last + 1..]
    ensures Parts(key, key[..first], key[first + 1..last], key[last + 1..])
  {
    assert key[..first] + "|" == key[..first + 1];
    assert key[..first + 1] + key[first + 1..last] == key[..last];
    assert key[..last] + "|" == key[..last + 1];
  }

  lemma PartsFound(key: string) returns (front: string, middle: string, end: string)
    requires ReminderKeyStart(key).Some?
    ensures Parts(key, front, middle, end)
  {
    RFindIsLast(key, '|', |key|);
    var last := RFind(key, '|', |key|).value;
    RFindIsLast(key, '|', last);
    var first := RFind(key, '|', last).value;
    assert key[last + 1..|key|] == key[last + 1..];
    front, middle, end := key[..first], key[first + 1..last], key[last + 1..];
    BarsSplit(key, first, last);
  }

  /** Whatever text a key is, it names a start exactly if that is what its last but one field spells. */
  lemma KeyStartIff(key: string, start: UnixSeconds)
    ensures ReminderKeyStart(key) == Some(start) <==>
            exists front, middle, end, negative, zeros ::
              Parts(key, front, middle, end) && Spells(middle, negative, zeros, start)
  {
    if ReminderKeyStart(key) == Some(start) {
      var front, middle, end := PartsFound(key);
      PartsOf(key, front, middle, end);
      FromCharsIff(middle, start);
    } else if front, middle, end, negative, zeros :|
      Parts(key, front, middle, end) && Spells(middle, negative, zeros, start)
    {
      PartsOf(key, front, middle, end);
      FromCharsIff(middle, start);
    }
  }
}
