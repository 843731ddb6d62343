/** src/calendar/calendar_reminder_monitor.cpp: the fired keys as the text that is persisted. */
module PersistedKeys {
  import opened Wrappers
  import opened CalendarTypes
  import opened DecimalText
  import opened ReminderKeys
  import opened Sorting

  const MAX_PERSISTED_FIRED_KEYS: nat := 256

  // ---- lines ----

  /** The first `n` keys as one string, a line each. */
  function JoinLines(keys: seq<string>, n: nat): string
    requires n <= |keys|
  {
    if n == 0 then ""
    else
      var encoded := JoinLines(keys, n - 1);
      (if encoded == "" then "" else encoded + "\n") + keys[n - 1]
  }

  function FirstLineEnd(text: string, from: nat): (at: nat)
    requires from <= |text|
    ensures from <= at <= |text| && (at < |text| ==> text[at] == '\n')
    ensures forall i :: from <= i < at ==> text[i] != '\n'
    decreases |text| - from
  {
    if from == |text| || text[from] == '\n' then from else FirstLineEnd(text, from + 1)
  }

  function Lines(line: string): seq<string> { if line == "" then [] else [line] }

  /** The nonempty lines of a text. */
  function SplitLines(text: string): seq<string>
    decreases |text|
  {
    var at := FirstLineEnd(text, 0);
    if at == |text| then Lines(text[..at]) else Lines(text[..at]) + SplitLines(text[at + 1..])
  }

  predicate OneLine(key: string) { key != "" && '\n' !in key }

  lemma LineEndStays(text: string, more: string, from: nat)
    requires from <= |text|
    ensures FirstLineEnd(text, from) < |text| ==> FirstLineEnd(text + more, from) == FirstLineEnd(text, from)
    ensures FirstLineEnd(text, from) == |text| ==> FirstLineEnd(text + "\n" + more, from) == |text|
    decreases |text| - from
  {
  }

  lemma OneLineSplits(key: string)
    requires OneLine(key)
    ensures SplitLines(key) == [key]
  {
    assert FirstLineEnd(key, 0) == |key| && key[..|key|] == key;
  }

  lemma SplitAt(text: string, at: nat)
    requires at == FirstLineEnd(text, 0) < |text|
    ensures SplitLines(text) == Lines(text[..at]) + SplitLines(text[at + 1..])
  {
  }

  lemma SplitOnly(text: string)
    requires FirstLineEnd(text, 0) == |text|
    ensures SplitLines(text) == Lines(text)
  {
    assert text[..|text|] == text;
  }

  lemma {:induction false} SplitIsLines(text: string, line: string)
    requires line in SplitLines(text)
    ensures OneLine(line)
    decreases |text|
  {
    var at := FirstLineEnd(text, 0);
    if line !in Lines(text[..at]) {
      SplitIsLines(text[at + 1..], line);
    }
  }

  function Joined(text: string, more: string): string { text + "\n" + more }

  lemma JoinedParts(text: string, more: string, at: nat)
    requires at == FirstLineEnd(text, 0)
    ensures var all := Joined(text, more);
      && at == FirstLineEnd(all, 0) < |all| && all[..at] == text[..at]
      && all[at + 1..] == if at == |text| then more else Joined(text[at + 1..], more)
  {
    LineEndStays(text, "\n" + more, 0);
    LineEndStays(text, more, 0);
    assert Joined(text, more) == text + ("\n" + more);
  }

  lemma JoinedSplitsAt(text: string, more: string, at: nat, rest: string)
    requires at == FirstLineEnd(text, 0) && rest == if at == |text| then more else Joined(text[at + 1..], more)
    ensures SplitLines(Joined(text, more)) == Lines(text[..at]) + SplitLines(rest)
  {
    JoinedParts(text, more, at);
    SplitAt(Joined(text, more), at);
  }

  lemma OneAfterAnother(all: seq<string>, first: seq<string>, whole: seq<string>, rest: seq<string>, more: seq<string>)
    requires all == first + (rest + more) && whole == first + rest
    ensures all == whole + more
  {
  }

  /** Texts joined by a line break are read one after the other. */
  lemma {:induction false} SplitTogether(text: string, more: string)
    ensures SplitLines(Joined(text, more)) == SplitLines(text) + SplitLines(more)
    decreases |text|
  {
    var at := FirstLineEnd(text, 0);
    if at == |text| {
      JoinedSplitsAt(text, more, at, more);
      SplitOnly(text);
      assert text[..at] == text;
    } else {
      var rest := text[at + 1..];
      SplitTogether(rest, more);
      JoinedSplitsAt(text, more, at, Joined(rest, more));
      SplitAt(text, at);
      OneAfterAnother(SplitLines(Joined(text, more)), Lines(text[..at]), SplitLines(text), SplitLines(rest),
                      SplitLines(more));
    }
  }

  lemma JoinOneMore(keys: seq<string>, n: nat)
    requires 0 < n <= |keys|
    ensures SplitLines(JoinLines(keys, n)) == SplitLines(JoinLines(keys, n - 1)) + SplitLines(keys[n - 1])
  {
    var encoded := JoinLines(keys, n - 1);
    if encoded == "" {
      SplitOnly(encoded);
      assert JoinLines(keys, n) == keys[n - 1];
    } else {
      SplitTogether(encoded, keys[n - 1]);
      assert JoinLines(keys, n) == Joined(encoded, keys[n - 1]);
    }
  }

  /** The fired keys are read back exactly if none of them is empty or holds a line break. */
  lemma {:induction false} PersistRoundTrip(keys: seq<string>)
    ensures SplitLines(JoinLines(keys, |keys|)) == keys <==> forall i :: 0 <= i < |keys| ==> OneLine(keys[i])
  {
    if SplitLines(JoinLines(keys, |keys|)) == keys {
      forall i | 0 <= i < |keys| ensures OneLine(keys[i]) {
        SplitIsLines(JoinLines(keys, |keys|), keys[i]);
      }
    }
    if forall i :: 0 <= i < |keys| ==> OneLine(keys[i]) {
      JoinedSplits(keys, |keys|);
      assert keys[..|keys|] == keys;
    }
  }

  lemma OneKeyMore(keys: seq<string>, n: nat)
    requires 0 < n <= |keys| && OneLine(keys[n - 1]) && SplitLines(JoinLines(keys, n - 1)) == keys[..n - 1]
    ensures SplitLines(JoinLines(keys, n)) == keys[..n]
  {
    JoinOneMore(keys, n);
    OneLineSplits(keys[n - 1]);
    assert keys[..n] == keys[..n - 1] + [keys[n - 1]];
  }

  lemma {:induction false} JoinedSplits(keys: seq<string>, n: nat)
    requires n <= |keys| && forall i :: 0 <= i < |keys| ==> OneLine(keys[i])
    ensures SplitLines(JoinLines(keys, n)) == keys[..n]
  {
    if n == 0 {
      SplitOnly("");
    } else {
      JoinedSplits(keys, n - 1);
      OneKeyMore(keys, n);
    }
  }

  lemma {:induction false} OneLineIsRead(keys: seq<string>, i: nat, n: nat)
    requires i < n <= |keys| && OneLine(keys[i])
    ensures keys[i] in SplitLines(JoinLines(keys, n))
  {
    JoinOneMore(keys, n);
    if i == n - 1 {
      OneLineSplits(keys[i]);
      assert keys[i] in [keys[i]];
    } else {
      OneLineIsRead(keys, i, n - 1);
    }
  }

  /** A reminder's key is one line exactly if the event's identity holds no line break. */
  lemma KeyIsOneLineIff(id: string, start: int, leadKey: int)
    ensures OneLine(KeyOf(id, start, leadKey)) <==> '\n' !in id
  {
    DecimalIsOneLine(start);
    DecimalIsOneLine(leadKey);
    if '\n' in id {
      assert '\n' in KeyOf(id, start, leadKey);
    }
  }

  lemma DecimalIsOneLine(x: int)
    ensures '\n' !in Decimal(x)
  {
  }

  /** What loading a saved text puts on record. */
  function LoadedKeys(text: string): set<string> { SetOf(SplitLines(text)) }

  // ---- what a text brings back ----

  lemma {:induction false} LineOfJoined(keys: seq<string>, n: nat, line: string)
    requires n <= |keys|
    ensures line in SplitLines(JoinLines(keys, n)) <==> exists i :: 0 <= i < n && line in SplitLines(keys[i])
  {
    if n == 0 {
      SplitOnly("");
    } else {
      JoinOneMore(keys, n);
      LineOfJoined(keys, n - 1, line);
    }
  }

  /** Whatever else was saved, a text brings a key back exactly if it is one line; any other is forgotten. */
  lemma RestartKeepsIff(keys: seq<string>, key: string)
    requires key in keys
    ensures key in LoadedKeys(JoinLines(keys, |keys|)) <==> OneLine(key)
  {
    var i :| 0 <= i < |keys| && keys[i] == key;
    if OneLine(key) {
      OneLineIsRead(keys, i, |keys|);
    }
    if key in LoadedKeys(JoinLines(keys, |keys|)) {
      SplitIsLines(JoinLines(keys, |keys|), key);
    }
  }

  /** A text brings back nothing that was not saved exactly if the lines of every saved key were. */
  lemma NothingElseIsLoadedIff(keys: seq<string>)
    ensures (forall line :: line in LoadedKeys(JoinLines(keys, |keys|)) ==> line in keys)
       <==> forall i, line :: 0 <= i < |keys| && line in SplitLines(keys[i]) ==> line in keys
  {
    forall line ensures line in LoadedKeys(JoinLines(keys, |keys|)) <==>
                        exists i :: 0 <= i < |keys| && line in SplitLines(keys[i])
    {
      LineOfJoined(keys, |keys|, line);
    }
  }

  /** A line break in an identity can bring back the key of another event, which silences that reminder. */
  lemma BreakLoadsAnotherKey(first: string, id: string, start: int, leadKey: int)
    requires '\n' !in id
    ensures KeyOf(id, start, leadKey) in LoadedKeys(JoinLines([KeyOf(first + "\n" + id, start, leadKey)], 1))
  {
    var broken, key := KeyOf(first + "\n" + id, start, leadKey), KeyOf(id, start, leadKey);
    assert broken == Joined(first, key);
    assert JoinLines([broken], 1) == broken;
    KeyIsOneLineIff(id, start, leadKey);
    SplitTogether(first, key);
    OneLineSplits(key);
  }

  // ---- which keys are saved ----

  /** When the event of a key starts; keys that name no start come last. */
  function Rank(key: string): int {
    match ReminderKeyStart(key)
    case Some(start) => start
    case None => INT64_MAX + 1
  }

  predicate Sooner(a: string, b: string) { Rank(a) < Rank(b) }

  predicate NoRepeats(keys: seq<string>) {
    forall i, j :: 0 <= i < j < |keys| ==> keys[i] != keys[j]
  }

  /** The keys of a set, each once, in some order. */
  ghost predicate Lists(keys: seq<string>, fired: set<string>) {
    NoRepeats(keys) && |keys| == |fired| && forall key :: key in keys <==> key in fired
  }

  /** At most 256 fired keys, each once: all of them, or those whose events start soonest. */
  predicate Soonest(keys: seq<string>, fired: set<string>) {
    && NoRepeats(keys)
    && |keys| == (if |fired| <= 256 then |fired| else 256)
    && (forall key :: key in keys ==> key in fired)
    && forall a, b :: a in keys && b in fired && b !in keys ==> Rank(a) <= Rank(b)
  }

  lemma RankOrders(a: string, b: string)
    requires Rank(a) <= Rank(b) && ReminderKeyStart(b).Some?
    ensures ReminderKeyStart(a).Some? && ReminderKeyStart(a).value <= ReminderKeyStart(b).value
  {
  }

  /** A key is left out for the sake of others only if it names no start, or one that is no sooner. */
  lemma SoonestFirst(keys: seq<string>, fired: set<string>, kept: string, dropped: string)
    requires Soonest(keys, fired) && kept in keys && dropped in fired && dropped !in keys
    ensures ReminderKeyStart(dropped).Some? ==>
              && ReminderKeyStart(kept).Some?
              && ReminderKeyStart(kept).value <= ReminderKeyStart(dropped).value
  {
    assert Rank(kept) <= Rank(dropped);
    if ReminderKeyStart(dropped).Some? {
      RankOrders(kept, dropped);
    }
  }

  function SetOf(keys: seq<string>): set<string> { set key | key in keys }

  lemma {:induction false} Counted(keys: seq<string>, n: nat)
    requires NoRepeats(keys) && n <= |keys|
    ensures |SetOf(keys[..n])| == n
  {
    if n > 0 {
      Counted(keys, n - 1);
      assert keys[..n] == keys[..n - 1] + [keys[n - 1]];
      assert SetOf(keys[..n]) == SetOf(keys[..n - 1]) + {keys[n - 1]};
    }
  }

  lemma SubsetOfSize<T>(a: set<T>, b: set<T>)
    requires a <= b && |a| == |b|
    ensures a == b
  {
    assert |b - a| == |b| - |a|;
  }

  /** Up to 256 keys, all are saved. */
  lemma AllAreSaved(keys: seq<string>, fired: set<string>)
    requires Soonest(keys, fired) && |fired| <= MAX_PERSISTED_FIRED_KEYS
    ensures SetOf(keys) == fired
  {
    Counted(keys, |keys|);
    assert keys[..|keys|] == keys;
    SubsetOfSize(SetOf(keys), fired);
  }

  lemma RepeatsCount(keys: seq<string>)
    ensures NoRepeats(keys) <==> forall key :: multiset(keys)[key] <= 1
  {
    if NoRepeats(keys) {
      forall key ensures multiset(keys)[key] <= 1 {
        CountOnce(keys, |keys|, key);
        assert keys[..|keys|] == keys;
      }
    } else {
      var i, j :| 0 <= i < j < |keys| && keys[i] == keys[j];
      assert keys == keys[..j] + keys[j..];
      assert keys[i] == keys[..j][i] && keys[j..][0] == keys[i];
      assert keys[i] in multiset(keys[..j]) && keys[i] in multiset(keys[j..]);
      assert multiset(keys)[keys[i]] == multiset(keys[..j])[keys[i]] + multiset(keys[j..])[keys[i]];
    }
  }

  lemma {:induction false} CountOnce(keys: seq<string>, n: nat, key: string)
    requires NoRepeats(keys) && n <= |keys|
    ensures multiset(keys[..n])[key] <= 1 && (key in keys[..n] <==> multiset(keys[..n])[key] == 1)
  {
    if n > 0 {
      CountOnce(keys, n - 1, key);
      assert keys[..n] == keys[..n - 1] + [keys[n - 1]];
      if keys[n - 1] == key {
        assert key !in keys[..n - 1];
      }
    }
  }

  /** A permutation of a list lists the same set. */
  lemma PermutedLists(keys: seq<string>, sorted: seq<string>, fired: set<string>)
    requires Lists(keys, fired) && multiset(sorted) == multiset(keys)
    ensures Lists(sorted, fired)
  {
    RepeatsCount(keys);
    RepeatsCount(sorted);
    assert |sorted| == |multiset(sorted)| == |multiset(keys)| == |keys|;
    forall key ensures key in sorted <==> key in keys {
      assert key in sorted <==> key in multiset(sorted);
      assert key in keys <==> key in multiset(keys);
    }
  }

  lemma PrefixIsSoonest(sorted: seq<string>, fired: set<string>)
    requires Lists(sorted, fired) && SortedBy(sorted, Sooner) && MAX_PERSISTED_FIRED_KEYS < |sorted|
    ensures Soonest(sorted[..MAX_PERSISTED_FIRED_KEYS], fired)
  {
    var keys := sorted[..MAX_PERSISTED_FIRED_KEYS];
    forall a, b | a in keys && b in fired && b !in keys ensures Rank(a) <= Rank(b) {
      assert forall k :: 0 <= k < |keys| ==> sorted[k] == keys[k] && keys[k] in keys;
      var i :| 0 <= i < |keys| && keys[i] == a;
      var j :| 0 <= j < |sorted| && sorted[j] == b;
      assert !Sooner(sorted[j], sorted[i]);
    }
  }

  // ---- the loops ----

  method ListFired(fired: set<string>) returns (keys: seq<string>)
    ensures Lists(keys, fired)
  {
    keys := [];
    var left := fired;
    while left != {}
      invariant left <= fired && NoRepeats(keys) && |keys| + |left| == |fired|
      invariant forall key :: key in keys <==> key in fired && key !in left
      decreases |left|
    {
      ghost var member := AnyOf(left);
      var key :| key in left;
      keys, left := keys + [key], left - {key};
    }
  }

  method KeepSoonest(all: seq<string>, ghost fired: set<string>) returns (keys: seq<string>)
    requires Lists(all, fired)
    ensures Soonest(keys, fired)
  {
    if |all| <= MAX_PERSISTED_FIRED_KEYS {
      return all;
    }
    var sorted := Sort(all, Sooner);
    PermutedLists(all, sorted, fired);
    PrefixIsSoonest(sorted, fired);
    keys := sorted[..MAX_PERSISTED_FIRED_KEYS];
  }

  method Encode(keys: seq<string>) returns (encoded: string)
    ensures encoded == JoinLines(keys, |keys|)
  {
    encoded := "";
    for i := 0 to |keys|
      invariant encoded == JoinLines(keys, i)
    {
      if encoded != "" {
        encoded := encoded + "\n";
      }
      encoded := encoded + keys[i];
    }
  }
}
