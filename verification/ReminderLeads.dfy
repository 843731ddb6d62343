/** src/calendar/calendar_reminders.cpp: the lead list every producer of events normalizes. */
module ReminderLeads {
  import opened Sorting

  const MAX_LEAD_SECONDS: int := 30 * 24 * 3600
  const MAX_REMINDERS_PER_EVENT: nat := 5

  predicate InRange(lead: int) { 0 <= lead <= MAX_LEAD_SECONDS }

  predicate Ascending(leads: seq<int>) {
    forall i, j :: 0 <= i < j < |leads| ==> leads[i] < leads[j]
  }

  predicate Normalized(leads: seq<int>) {
    && |leads| <= MAX_REMINDERS_PER_EVENT
    && Ascending(leads)
    && forall i :: 0 <= i < |leads| ==> InRange(leads[i])
  }

  /** `result` holds the smallest usable leads of `leads`, at most five of them, each once. */
  ghost predicate SmallestLeads(leads: seq<int>, result: seq<int>) {
    && Normalized(result)
    && (forall x :: x in result ==> x in leads)
    && (forall x :: x in leads && InRange(x) && x !in result ==>
          |result| == MAX_REMINDERS_PER_EVENT && forall y :: y in result ==> y < x)
  }

  method EraseUnusable(leads: seq<int>) returns (kept: seq<int>)
    ensures forall x :: x in kept <==> x in leads && InRange(x)
  {
    kept := [];
    for i := 0 to |leads|
      invariant forall x :: x in kept <==> x in leads[..i] && InRange(x)
    {
      assert forall x :: x in leads[..i + 1] <==> x in leads[..i] || x == leads[i];
      if InRange(leads[i]) {
        kept := kept + [leads[i]];
      }
    }
  }

  method Unique(sorted: seq<int>) returns (unique: seq<int>)
    requires forall i, j :: 0 <= i < j < |sorted| ==> sorted[i] <= sorted[j]
    ensures Ascending(unique) && forall x :: x in unique <==> x in sorted
  {
    unique := [];
    for i := 0 to |sorted|
      invariant Ascending(unique)
      invariant forall x :: x in unique <==> x in sorted[..i]
      invariant unique != [] ==> i > 0 && unique[|unique| - 1] == sorted[i - 1]
      invariant unique == [] ==> i == 0
    {
      assert forall x :: x in sorted[..i + 1] <==> x in sorted[..i] || x == sorted[i];
      if unique == [] || unique[|unique| - 1] != sorted[i] {
        unique := unique + [sorted[i]];
      }
    }
    assert sorted[..|sorted|] == sorted;
  }

  method NormalizeReminderLeads(leads: seq<int>) returns (result: seq<int>)
    ensures SmallestLeads(leads, result)
  {
    var kept := EraseUnusable(leads);
    var sorted := Sort(kept, (a: int, b: int) => a < b);
    assert forall x :: x in sorted <==> x in kept by {
      assert forall x :: x in sorted <==> x in multiset(sorted);
      assert forall x :: x in kept <==> x in multiset(kept);
    }
    var unique := Unique(sorted);
    result := if |unique| > MAX_REMINDERS_PER_EVENT then unique[..MAX_REMINDERS_PER_EVENT] else unique;
  }

  lemma StillInside(leads: seq<int>, a: seq<int>, b: seq<int>, k: nat)
    requires SmallestLeads(leads, a) && SmallestLeads(leads, b)
    requires k <= |a| && k < |b| && a[..k] == b[..k]
    ensures k < |a|
  {
    assert b[k] in b;
    assert forall i :: 0 <= i < k ==> a[i] == a[..k][i] == b[..k][i] < b[k];
  }

  lemma {:induction false} PrefixesAgree(leads: seq<int>, a: seq<int>, b: seq<int>, n: nat)
    requires SmallestLeads(leads, a) && SmallestLeads(leads, b)
    requires n <= |b|
    ensures n <= |a| && a[..n] == b[..n]
  {
    if n > 0 {
      PrefixesAgree(leads, a, b, n - 1);
      StillInside(leads, a, b, n - 1);
      NotSmaller(leads, a, b, n - 1);
      NotSmaller(leads, b, a, n - 1);
      assert a[..n] == a[..n - 1] + [a[n - 1]] && b[..n] == b[..n - 1] + [b[n - 1]];
    }
  }

  /** The contract leaves one answer only. */
  lemma SmallestLeadsAreUnique(leads: seq<int>, a: seq<int>, b: seq<int>)
    requires SmallestLeads(leads, a) && SmallestLeads(leads, b)
    ensures a == b
  {
    PrefixesAgree(leads, a, b, |b|);
    PrefixesAgree(leads, b, a, |a|);
    assert a == a[..|a|] && b == b[..|b|];
  }

  lemma NotSmaller(leads: seq<int>, a: seq<int>, b: seq<int>, k: nat)
    requires SmallestLeads(leads, a) && SmallestLeads(leads, b)
    requires k < |a| && k < |b| && a[..k] == b[..k]
    ensures a[k] >= b[k]
  {
    assert a[k] in a && b[k] in b;
    forall i | 0 <= i < |b| ensures a[k] < b[k] ==> b[i] != a[k] {
      if i < k {
        assert a[..k][i] == b[..k][i];
      }
    }
  }

  /** Normalizing on every read of the cache changes nothing the first time did not. */
  lemma NormalizedIsFixed(leads: seq<int>)
    requires Normalized(leads)
    ensures forall result :: SmallestLeads(leads, result) <==> result == leads
  {
    assert SmallestLeads(leads, leads);
    forall result | SmallestLeads(leads, result) ensures result == leads {
      SmallestLeadsAreUnique(leads, result, leads);
    }
  }
}
