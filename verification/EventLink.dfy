/** src/calendar/event_link.cpp: which link an event offers, and that it survives the cache. */
module EventLink {
  import opened Wrappers
  import opened CalendarTypes
  import opened ReminderLeads

  // Strings are bytes here: every char is at most U+00FF.
  const MAX_LINK_LENGTH := 2048

  // ---- characters ----

  predicate IsSpace(c: char) { c == ' ' || '\t' <= c <= '\r' }

  predicate IsAlnum(c: char) { '0' <= c <= '9' || 'a' <= c <= 'z' || 'A' <= c <= 'Z' }

  /** Whitespace, angle brackets and quotes end a link in running text. */
  predicate Terminates(c: char) { IsSpace(c) || c == '<' || c == '>' || c == '"' || c == '\'' }

  predicate IsPunctuation(c: char) { c == '.' || c == ',' || c == ';' || c == ':' || c == '!' || c == '?' }

  predicate BadByte(c: char) { c <= ' ' || c as int == 0x7f }

  function ToLower(c: char): char {
    if 'A' <= c <= 'Z' then (c as int + 32) as char else c
  }

  predicate EqualsIgnoreCase(a: string, b: string) {
    |a| == |b| && forall i :: 0 <= i < |a| ==> ToLower(a[i]) == ToLower(b[i])
  }

  // ---- what a link is ----

  function SchemePrefixLength(text: string): (length: nat)
    ensures length == 0 || length < |text|
  {
    if |text| > 8 && EqualsIgnoreCase(text[..8], "https://") then 8
    else if |text| > 7 && EqualsIgnoreCase(text[..7], "http://") then 7
    else 0
  }

  predicate HasHost(link: string, schemeLength: nat)
    requires schemeLength < |link|
  {
    link[schemeLength] != '/' && link[schemeLength] != '?' && link[schemeLength] != '#'
  }

  /** An http(s) link with a host, of bounded length and without whitespace or control bytes. */
  predicate IsValidLink(link: string) {
    && 0 < |link| <= MAX_LINK_LENGTH
    && SchemePrefixLength(link) != 0 && HasHost(link, SchemePrefixLength(link))
    && forall i :: 0 <= i < |link| ==> !BadByte(link[i])
  }

  // ---- links in running text ----

  /** The last character is punctuation or a wrapper that the rest does not open. */
  predicate Droppable(candidate: string) {
    candidate != [] &&
    var last := candidate[|candidate| - 1];
    || IsPunctuation(last)
    || (last == ')' && '(' !in candidate) || (last == ']' && '[' !in candidate) || (last == '}' && '{' !in candidate)
    || last == '>' || last == '"' || last == '\''
  }

  function TrimmedLength(candidate: string, n: nat): (length: nat)
    requires n <= |candidate|
    ensures length <= n
  {
    if n > 0 && Droppable(candidate[..n]) then TrimmedLength(candidate, n - 1) else n
  }

  /** The longest prefix whose last character stays. */
  lemma {:induction false} TrimmedIsLongest(candidate: string, n: nat)
    requires n <= |candidate|
    ensures !Droppable(candidate[..TrimmedLength(candidate, n)])
    ensures forall k :: TrimmedLength(candidate, n) < k <= n ==> Droppable(candidate[..k])
  {
    if n > 0 && Droppable(candidate[..n]) {
      TrimmedIsLongest(candidate, n - 1);
    }
  }

  function RunLength(text: string, n: nat): (length: nat)
    requires n <= |text|
    ensures n <= length <= |text|
    ensures forall k :: n <= k < length ==> !Terminates(text[k])
    ensures length < |text| ==> Terminates(text[length])
    decreases |text| - n
  {
    if n < |text| && !Terminates(text[n]) then RunLength(text, n + 1) else n
  }

  /** What follows position `i` up to the next terminator, without trailing punctuation. */
  function Candidate(text: string, i: nat): (candidate: string)
    requires i <= |text|
    ensures |candidate| <= |text| - i
  {
    var run := text[i..RunLength(text, i)];
    run[..TrimmedLength(run, |run|)]
  }

  /** A link starts here: a scheme at a token boundary whose candidate is valid. */
  predicate LinkAt(text: string, i: nat)
    requires i < |text|
  {
    && SchemePrefixLength(text[i..]) != 0
    && (i > 0 ==> !IsAlnum(text[i - 1]))
    && IsValidLink(Candidate(text, i))
  }

  /** The first link from position `i` on, or nothing. */
  function Extract(text: string, i: nat): (link: string)
    requires i <= |text|
    ensures |link| <= |text| - i
    decreases |text| - i
  {
    if i == |text| then "" else if LinkAt(text, i) then Candidate(text, i) else Extract(text, i + 1)
  }

  /** Nothing is found only where there is no link. */
  lemma {:induction false} NothingExtractedIff(text: string, i: nat)
    requires i <= |text|
    ensures Extract(text, i) == "" <==> forall k :: i <= k < |text| ==> !LinkAt(text, k)
    decreases |text| - i
  {
    if i < |text| && !LinkAt(text, i) {
      NothingExtractedIff(text, i + 1);
    }
  }

  /** What is found is the first link. */
  lemma {:induction false} ExtractIsFirst(text: string, i: nat) returns (at: nat)
    requires i <= |text| && Extract(text, i) != ""
    ensures i <= at < |text| && LinkAt(text, at) && Extract(text, i) == Candidate(text, at)
    ensures forall j :: i <= j < at ==> !LinkAt(text, j)
    decreases |text| - i
  {
    if LinkAt(text, i) {
      at := i;
    } else {
      at := ExtractIsFirst(text, i + 1);
    }
  }

  lemma CandidateIsClean(text: string, i: nat)
    requires i <= |text|
    ensures var candidate := Candidate(text, i);
      && candidate == text[i..i + |candidate|] && !Droppable(candidate)
      && forall k :: 0 <= k < |candidate| ==> !Terminates(candidate[k])
  {
    var run := text[i..RunLength(text, i)];
    TrimmedIsLongest(run, |run|);
  }

  /** A link taken out of text is valid, holds no terminator and does not end in punctuation. */
  lemma ExtractedIsClean(text: string)
    requires Extract(text, 0) != ""
    ensures var link := Extract(text, 0);
      IsValidLink(link) && !Droppable(link) && forall k :: 0 <= k < |link| ==> !Terminates(link[k])
  {
    var at := ExtractIsFirst(text, 0);
    CandidateIsClean(text, at);
  }

  // ---- resolving ----

  function TrimLeft(s: string, from: nat): (at: nat)
    requires from <= |s|
    ensures from <= at <= |s|
    decreases |s| - from
  {
    if from < |s| && IsSpace(s[from]) then TrimLeft(s, from + 1) else from
  }

  function TrimRight(s: string, low: nat, to: nat): (at: nat)
    requires low <= to <= |s|
    ensures low <= at <= to
  {
    if low < to && IsSpace(s[to - 1]) then TrimRight(s, low, to - 1) else to
  }

  function Trim(s: string): string {
    var low := TrimLeft(s, 0);
    s[low..TrimRight(s, low, |s|)]
  }

  function Resolve(location: string, preferred: string, url: string): string {
    if Extract(location, 0) != "" then Extract(location, 0)
    else if Extract(preferred, 0) != "" then Extract(preferred, 0)
    else if IsValidLink(Trim(url)) then Trim(url) else ""
  }

  /** Nothing but a valid link, or nothing at all, ever reaches the handler. */
  lemma ResolvedIsValid(location: string, preferred: string, url: string)
    ensures var link := Resolve(location, preferred, url); link == "" || IsValidLink(link)
  {
    if Extract(location, 0) != "" {
      ExtractedIsClean(location);
    } else if Extract(preferred, 0) != "" {
      ExtractedIsClean(preferred);
    }
  }

  lemma TrimKeepsLinks(link: string)
    requires link == "" || IsValidLink(link)
    ensures Trim(link) == link
  {
    if link != "" {
      assert !BadByte(link[0]) && !BadByte(link[|link| - 1]);
    }
  }

  /** Resolving a saved link again, with the same location and no other field, gives the same link. */
  lemma ResolveIsStable(location: string, preferred: string, url: string)
    ensures Resolve(location, "", Resolve(location, preferred, url)) == Resolve(location, preferred, url)
  {
    ResolvedIsValid(location, preferred, url);
    TrimKeepsLinks(Resolve(location, preferred, url));
  }

  predicate Clean(link: string) {
    !Droppable(link) && forall k :: 0 <= k < |link| ==> !Terminates(link[k])
  }

  lemma CleanLinkReextracts(link: string)
    requires IsValidLink(link) && Clean(link)
    ensures Extract(link, 0) == link
  {
    assert link[0..] == link && link[0..|link|] == link && link[..|link|] == link;
    assert RunLength(link, 0) == |link|;
    assert TrimmedLength(link, |link|) == |link|;
    assert Candidate(link, 0) == link;
  }

  /** Had the link been saved as running text instead, it would come back exactly if it holds no terminator
      and does not end in punctuation. */
  lemma ReextractsIff(link: string)
    requires IsValidLink(link)
    ensures Extract(link, 0) == link <==> Clean(link)
  {
    if Extract(link, 0) == link {
      ExtractedIsClean(link);
    }
    if Clean(link) {
      CleanLinkReextracts(link);
    }
  }

  // ---- events ----

  /** The Google client falls back on the description. */
  function GoogleLink(location: string, hangout: string, description: string): string {
    var link := Resolve(location, hangout, "");
    if link == "" then Resolve("", description, "") else link
  }

  lemma GoogleLinkIsStable(location: string, hangout: string, description: string)
    ensures Resolve(location, "", GoogleLink(location, hangout, description)) ==
            GoogleLink(location, hangout, description)
  {
    ResolveIsStable(location, hangout, "");
    ResolvedIsValid("", description, "");
    TrimKeepsLinks(Resolve("", description, ""));
  }

  /** How clients fill an event's links and leads. */
  ghost predicate FromClient(e: CalendarEvent) {
    && ((exists preferred, url :: e.url == Resolve(e.location, preferred, url))
        || exists hangout, description :: e.url == GoogleLink(e.location, hangout, description))
    && (exists html :: e.webUrl == Resolve("", "", html))
    && (e.reminderLeads.Some? ==> Normalized(e.reminderLeads.value))
  }

  /** What the cache makes of a saved event. */
  ghost predicate ReadBack(saved: CalendarEvent, loaded: CalendarEvent) {
    && loaded == saved.(url := Resolve(saved.location, "", saved.url), webUrl := Resolve("", "", saved.webUrl),
                        reminderLeads := loaded.reminderLeads)
    && (saved.reminderLeads.None? <==> loaded.reminderLeads.None?)
    && (saved.reminderLeads.Some? ==> SmallestLeads(saved.reminderLeads.value, loaded.reminderLeads.value))
  }

  /** Resolving its links and normalizing its leads again would change nothing. */
  predicate Stable(e: CalendarEvent) {
    && Resolve(e.location, "", e.url) == e.url && Resolve("", "", e.webUrl) == e.webUrl
    && (e.reminderLeads.Some? ==> Normalized(e.reminderLeads.value))
  }

  /** An event comes back from the cache unchanged exactly if it is stable. */
  lemma EventSurvivesIff(saved: CalendarEvent, loaded: CalendarEvent)
    requires ReadBack(saved, loaded)
    ensures loaded == saved <==> Stable(saved)
  {
    if saved.reminderLeads.Some? && Normalized(saved.reminderLeads.value) {
      NormalizedIsFixed(saved.reminderLeads.value);
    }
  }

  /** What comes back is stable, whatever was saved. */
  lemma LoadedIsStable(saved: CalendarEvent, loaded: CalendarEvent)
    requires ReadBack(saved, loaded)
    ensures Stable(loaded)
  {
    ResolveIsStable(saved.location, "", saved.url);
    ResolveIsStable("", "", saved.webUrl);
  }

  /** What a client has produced is stable, so it comes back from the cache unchanged. */
  lemma ClientEventsAreStable(e: CalendarEvent)
    requires FromClient(e)
    ensures Stable(e)
  {
    if preferred, url :| e.url == Resolve(e.location, preferred, url) {
      ResolveIsStable(e.location, preferred, url);
    } else {
      var hangout, description :| e.url == GoogleLink(e.location, hangout, description);
      GoogleLinkIsStable(e.location, hangout, description);
    }
    var html :| e.webUrl == Resolve("", "", html);
    ResolveIsStable("", "", html);
  }

  // ---- the loops ----

  method TrimTrailingPunctuation(candidate: string) returns (trimmed: string)
    ensures trimmed == candidate[..TrimmedLength(candidate, |candidate|)]
  {
    trimmed := candidate;
    while trimmed != []
      invariant trimmed == candidate[..|trimmed|] && |trimmed| <= |candidate|
      invariant TrimmedLength(candidate, |trimmed|) == TrimmedLength(candidate, |candidate|)
      decreases |trimmed|
    {
      var last := trimmed[|trimmed| - 1];
      var sentencePunctuation := last == '.' || last == ',' || last == ';' || last == ':' || last == '!' || last == '?';
      var unbalancedWrapper := (last == ')' && '(' !in trimmed)
        || (last == ']' && '[' !in trimmed)
        || (last == '}' && '{' !in trimmed)
        || last == '>' || last == '"' || last == '\'';
      if !sentencePunctuation && !unbalancedWrapper {
        break;
      }
      trimmed := trimmed[..|trimmed| - 1];
    }
  }

  method FindTerminator(text: string, from: nat) returns (end: nat)
    requires from <= |text|
    ensures end == RunLength(text, from)
  {
    end := from;
    while end < |text| && !Terminates(text[end])
      invariant from <= end <= |text| && RunLength(text, end) == RunLength(text, from)
    {
      end := end + 1;
    }
  }

  method ExtractEmbeddedLink(text: string) returns (link: string)
    ensures link == Extract(text, 0)
  {
    for i := 0 to |text|
      invariant Extract(text, i) == Extract(text, 0)
    {
      if SchemePrefixLength(text[i..]) == 0 {
        continue;
      }
      if i > 0 && IsAlnum(text[i - 1]) {
        continue;
      }
      var end := FindTerminator(text, i);
      var candidate := TrimTrailingPunctuation(text[i..end]);
      if IsValidLink(candidate) {
        return candidate;
      }
    }
    link := "";
  }

  method ResolveEventLink(location: string, preferred: string, url: string) returns (link: string)
    ensures link == Resolve(location, preferred, url)
  {
    var candidates := [location, preferred];
    for i := 0 to 2
      invariant forall k :: 0 <= k < i ==> Extract(candidates[k], 0) == ""
    {
      assert candidates[i] == if i == 0 then location else preferred;
      assert i == 1 ==> Extract(candidates[0], 0) == "";
      link := ExtractEmbeddedLink(candidates[i]);
      if link != "" {
        return;
      }
    }
    assert Extract(candidates[0], 0) == "" && Extract(candidates[1], 0) == "";
    var trimmed := Trim(url);
    link := if IsValidLink(trimmed) then trimmed else "";
  }
}
