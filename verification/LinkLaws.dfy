/** src/calendar/event_link.cpp: which part of a text is its link, character by character. */
module LinkLaws {
  import opened CalendarTypes
  import opened EventLink
  import ReminderLeads

  // ---- characters ----

  predicate Blank(c: char) { c as int == 32 || 9 <= c as int <= 13 }

  /** Whitespace, `<`, `>` and both quotes. */
  predicate Stops(c: char) { Blank(c) || c in "<>\"'" }

  /** The same letter in either case, or the same character. */
  predicate SameLetter(c: char, lower: char) {
    c == lower || ('a' <= lower <= 'z' && c as int + 32 == lower as int)
  }

  predicate Begins(text: string, scheme: string) {
    |text| > |scheme| && forall i :: 0 <= i < |scheme| ==> SameLetter(text[i], scheme[i])
  }

  lemma LowerIff(c: char, lower: char)
    requires !('A' <= lower <= 'Z')
    ensures ToLower(c) == ToLower(lower) <==> SameLetter(c, lower)
  {
  }

  lemma BeginsIff(text: string, scheme: string)
    requires forall i :: 0 <= i < |scheme| ==> !('A' <= scheme[i] <= 'Z')
    ensures |text| > |scheme| && EqualsIgnoreCase(text[..|scheme|], scheme) <==> Begins(text, scheme)
  {
    if |text| > |scheme| {
      forall i | 0 <= i < |scheme|
        ensures ToLower(text[..|scheme|][i]) == ToLower(scheme[i]) <==> SameLetter(text[i], scheme[i])
      {
        LowerIff(text[i], scheme[i]);
      }
    }
  }

  lemma SchemeIff(text: string)
    ensures SchemePrefixLength(text) ==
            (if Begins(text, "https://") then 8 else if Begins(text, "http://") then 7 else 0)
  {
    BeginsIff(text, "https://");
    BeginsIff(text, "http://");
  }

  // ---- links ----

  /** http or https in any case, then a host, at most 2048 bytes, none of them a control character or a blank. */
  predicate Valid(link: string) {
    && |link| <= 2048
    && (Begins(link, "https://") || Begins(link, "http://"))
    && (Begins(link, "https://") ==> link[8] !in "/?#") && (Begins(link, "http://") ==> link[7] !in "/?#")
    && forall i :: 0 <= i < |link| ==> 32 < link[i] as int && link[i] as int != 127
  }

  /** A link is valid exactly like this. */
  lemma ValidIff(link: string)
    ensures IsValidLink(link) <==> Valid(link)
  {
    SchemeIff(link);
    if Begins(link, "https://") {
      assert !Begins(link, "http://") by {
        assert SameLetter(link[4], "https://"[4]);
      }
    }
  }

  /** The last character is punctuation, a quote, or closes what the candidate does not open. */
  predicate Drops(candidate: string) {
    candidate != [] &&
    var last := candidate[|candidate| - 1];
    || last in ".,;:!?>\"'"
    || (last == ')' && '(' !in candidate) || (last == ']' && '[' !in candidate) || (last == '}' && '{' !in candidate)
  }

  lemma DropsIff(candidate: string)
    ensures Droppable(candidate) <==> Drops(candidate)
  {
  }

  /** The text holds a link from `i` to `e`: a scheme that no letter or digit precedes, up to the next character
      that stops it, at `stop`, without the characters dropped from its end, and valid. */
  predicate Holds(text: string, i: nat, e: nat, stop: nat) {
    && i < e <= stop <= |text|
    && (Begins(text[i..], "https://") || Begins(text[i..], "http://"))
    && (i > 0 ==> !('0' <= text[i - 1] <= '9' || 'a' <= text[i - 1] <= 'z' || 'A' <= text[i - 1] <= 'Z'))
    && (forall k :: i <= k < stop ==> !Stops(text[k])) && (stop < |text| ==> Stops(text[stop]))
    && !Drops(text[i..e]) && (forall k :: e < k <= stop ==> Drops(text[i..k]))
    && Valid(text[i..e])
  }

  ghost predicate HoldsAt(text: string, i: nat) { exists e: nat, stop: nat :: Holds(text, i, e, stop) }

  lemma StopsIff(c: char)
    ensures Terminates(c) <==> Stops(c)
  {
  }

  lemma RunStops(text: string, i: nat, stop: nat)
    requires i <= stop <= |text| && (forall k :: i <= k < stop ==> !Stops(text[k])) &&
             (stop < |text| ==> Stops(text[stop]))
    ensures RunLength(text, i) == stop
  {
    if RunLength(text, i) < stop {
      StopsIff(text[RunLength(text, i)]);
    } else if stop < RunLength(text, i) {
      StopsIff(text[stop]);
    }
  }

  lemma TrimmedAt(run: string, n: nat, e: nat)
    requires e <= n <= |run| && !Droppable(run[..e]) && forall k :: e < k <= n ==> Droppable(run[..k])
    ensures TrimmedLength(run, n) == e
  {
    TrimmedIsLongest(run, n);
  }

  lemma DropsOfRun(text: string, i: nat, stop: nat, k: nat)
    requires i <= k <= stop <= |text|
    ensures text[i..stop][..k - i] == text[i..k]
    ensures Droppable(text[i..stop][..k - i]) <==> Drops(text[i..k])
  {
    assert text[i..stop][..k - i] == text[i..k];
    DropsIff(text[i..k]);
  }

  lemma TrimmedRun(text: string, i: nat, e: nat, stop: nat)
    requires i <= e <= stop <= |text|
    ensures !Drops(text[i..e]) && (forall k :: e < k <= stop ==> Drops(text[i..k])) ==>
              TrimmedLength(text[i..stop], stop - i) == e - i
    ensures TrimmedLength(text[i..stop], stop - i) == e - i ==>
              !Drops(text[i..e]) && forall k :: e < k <= stop ==> Drops(text[i..k])
  {
    var run := text[i..stop];
    DropsOfRun(text, i, stop, e);
    TrimmedIsLongest(run, stop - i);
    if !Drops(text[i..e]) && forall k :: e < k <= stop ==> Drops(text[i..k]) {
      forall k | e - i < k <= stop - i ensures Droppable(run[..k]) {
        DropsOfRun(text, i, stop, i + k);
      }
      TrimmedAt(run, stop - i, e - i);
    }
    if TrimmedLength(run, stop - i) == e - i {
      forall k | e < k <= stop ensures Drops(text[i..k]) {
        DropsOfRun(text, i, stop, k);
      }
    }
  }

  lemma CandidateEnds(text: string, i: nat, e: nat, stop: nat)
    requires i <= e <= stop <= |text| && stop == RunLength(text, i)
    requires !Drops(text[i..e]) && forall k :: e < k <= stop ==> Drops(text[i..k])
    ensures Candidate(text, i) == text[i..e]
  {
    TrimmedRun(text, i, e, stop);
    DropsOfRun(text, i, stop, e);
  }

  lemma CandidateOf(text: string, i: nat, e: nat, stop: nat)
    requires Holds(text, i, e, stop)
    ensures LinkAt(text, i) && Candidate(text, i) == text[i..e]
  {
    RunStops(text, i, stop);
    CandidateEnds(text, i, e, stop);
    LinkIf(text, i, text[i..e]);
  }

  lemma LinkIf(text: string, i: nat, link: string)
    requires i < |text| && Candidate(text, i) == link && Valid(link)
    requires Begins(text[i..], "https://") || Begins(text[i..], "http://")
    requires i > 0 ==> !('0' <= text[i - 1] <= '9' || 'a' <= text[i - 1] <= 'z' || 'A' <= text[i - 1] <= 'Z')
    ensures LinkAt(text, i)
  {
    SchemeIff(text[i..]);
    ValidIff(link);
  }

  lemma RunIs(text: string, i: nat) returns (stop: nat)
    requires i <= |text|
    ensures i <= stop <= |text| && stop == RunLength(text, i)
    ensures (forall k :: i <= k < stop ==> !Stops(text[k])) && (stop < |text| ==> Stops(text[stop]))
  {
    stop := RunLength(text, i);
    forall k | i <= k < stop ensures !Stops(text[k]) {
      StopsIff(text[k]);
    }
    if stop < |text| {
      StopsIff(text[stop]);
    }
  }

  lemma CandidateIs(text: string, i: nat, stop: nat) returns (e: nat)
    requires i <= |text| && stop == RunLength(text, i)
    ensures i <= e <= stop && Candidate(text, i) == text[i..e]
    ensures !Drops(text[i..e]) && forall k :: e < k <= stop ==> Drops(text[i..k])
  {
    e := i + TrimmedLength(text[i..stop], stop - i);
    DropsOfRun(text, i, stop, e);
    TrimmedRun(text, i, e, stop);
  }

  lemma LinkHolds(text: string, i: nat) returns (e: nat, stop: nat)
    requires i < |text| && LinkAt(text, i)
    ensures Holds(text, i, e, stop) && Candidate(text, i) == text[i..e]
  {
    stop := RunIs(text, i);
    e := CandidateIs(text, i, stop);
    SchemeIff(text[i..]);
    ValidIff(text[i..e]);
  }

  lemma LinkAtIff(text: string, i: nat)
    requires i < |text|
    ensures LinkAt(text, i) <==> HoldsAt(text, i)
  {
    if LinkAt(text, i) {
      var e, stop := LinkHolds(text, i);
    }
    if e: nat, stop: nat :| Holds(text, i, e, stop) {
      CandidateOf(text, i, e, stop);
    }
  }

  /** What is extracted is the first link the text holds, and nothing if and only if it holds none. */
  lemma ExtractedIs(text: string) returns (i: nat, e: nat, stop: nat)
    ensures Extract(text, 0) == "" <==> forall j: nat :: j < |text| ==> !HoldsAt(text, j)
    ensures Extract(text, 0) != "" ==>
              Holds(text, i, e, stop) && Extract(text, 0) == text[i..e] && forall j: nat :: j < i ==> !HoldsAt(text, j)
  {
    i, e, stop := 0, 0, 0;
    NothingExtractedIff(text, 0);
    forall j: nat | j < |text| ensures LinkAt(text, j) <==> HoldsAt(text, j) {
      LinkAtIff(text, j);
    }
    if Extract(text, 0) != "" {
      i := ExtractIsFirst(text, 0);
      e, stop := LinkHolds(text, i);
    }
  }

  // ---- resolving ----

  /** Trimming takes off exactly the blanks at both ends. */
  lemma TrimIs(s: string) returns (low: nat, high: nat)
    ensures low <= high <= |s| && Trim(s) == s[low..high]
    ensures (forall k :: 0 <= k < low ==> Blank(s[k])) && (forall k :: high <= k < |s| ==> Blank(s[k]))
    ensures low < high ==> !Blank(s[low]) && !Blank(s[high - 1])
  {
    low := TrimLeft(s, 0);
    high := TrimRight(s, low, |s|);
    LeftBlanks(s, 0);
    RightBlanks(s, low, |s|);
  }

  lemma {:induction false} LeftBlanks(s: string, from: nat)
    requires from <= |s|
    ensures forall k :: from <= k < TrimLeft(s, from) ==> Blank(s[k])
    ensures TrimLeft(s, from) < |s| ==> !Blank(s[TrimLeft(s, from)])
    decreases |s| - from
  {
    if from < |s| && IsSpace(s[from]) {
      LeftBlanks(s, from + 1);
    }
  }

  lemma {:induction false} RightBlanks(s: string, low: nat, to: nat)
    requires low <= to <= |s|
    ensures forall k :: TrimRight(s, low, to) <= k < to ==> Blank(s[k])
    ensures low < TrimRight(s, low, to) ==> !Blank(s[TrimRight(s, low, to) - 1])
  {
    if low < to && IsSpace(s[to - 1]) {
      RightBlanks(s, low, to - 1);
    }
  }

  /** The location's link comes first, then that of the preferred field; without either, the URL itself if it is
      valid once trimmed. */
  lemma ResolvedIs(location: string, preferred: string, url: string)
    ensures var link := Resolve(location, preferred, url);
      && (Extract(location, 0) != "" ==> link == Extract(location, 0))
      && (Extract(location, 0) == "" && Extract(preferred, 0) != "" ==> link == Extract(preferred, 0))
      && (Extract(location, 0) == "" == Extract(preferred, 0) ==> link == if Valid(Trim(url)) then Trim(url) else "")
  {
    ValidIff(Trim(url));
  }

  /** The Google client looks at location and hangout link first, and at the description only without either. */
  lemma GoogleLinkIs(location: string, hangout: string, description: string)
    ensures var link := GoogleLink(location, hangout, description);
      && (Extract(location, 0) != "" ==> link == Extract(location, 0))
      && (Extract(location, 0) == "" && Extract(hangout, 0) != "" ==> link == Extract(hangout, 0))
      && (Extract(location, 0) == "" == Extract(hangout, 0) ==> link == Extract(description, 0))
  {
    assert Trim("") == "" && Extract("", 0) == "";
  }

  // ---- loading ----

  /** A URL by itself: the trimmed text, if it is a link. */
  function Alone(url: string): string { if Valid(Trim(url)) then Trim(url) else "" }

  /** A loaded event has the location's link or else its own, if valid, and its own web link, if valid; its leads
      are cut down to at most five, and everything else is as it was saved. */
  lemma ReadBackIs(saved: CalendarEvent, loaded: CalendarEvent)
    requires ReadBack(saved, loaded)
    ensures loaded.url == (if Extract(saved.location, 0) != "" then Extract(saved.location, 0) else Alone(saved.url))
    ensures loaded.webUrl == Alone(saved.webUrl)
    ensures loaded.reminderLeads.None? <==> saved.reminderLeads.None?
    ensures loaded.reminderLeads.Some? ==> ReminderLeads.SmallestLeads(saved.reminderLeads.value,
                                                                       loaded.reminderLeads.value)
    ensures loaded.(url := saved.url, webUrl := saved.webUrl, reminderLeads := saved.reminderLeads) == saved
  {
    assert Extract("", 0) == "";
    ResolvedIs(saved.location, "", saved.url);
    ResolvedIs("", "", saved.webUrl);
  }
}
