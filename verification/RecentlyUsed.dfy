/** Which keys were used most recently: the reference for a bounded cache. */
module RecentlyUsed {
  import opened Wrappers

  ghost predicate Distinct<K>(s: seq<K>) {
    forall i, j :: 0 <= i < j < |s| ==> s[i] != s[j]
  }

  function IndexOf<K(==)>(s: seq<K>, k: K): (at: nat)
    requires k in s
    ensures at < |s| && s[at] == k
  {
    FindFrom(s, k, 0)
  }

  function FindFrom<K(==)>(s: seq<K>, k: K, from: nat): (at: nat)
    requires from <= |s| && exists i :: from <= i < |s| && s[i] == k
    ensures from <= at < |s| && s[at] == k
    decreases |s| - from
  {
    if s[from] == k then from else FindFrom(s, k, from + 1)
  }

  /** The keys in order of last use, the latest first, after one more use. */
  function Touch<K(==)>(recent: seq<K>, k: K): seq<K> {
    [k] + (if k in recent then DropAt(recent, IndexOf(recent, k)) else recent)
  }

  /** The keys of the first `n` uses in order of last use, the latest first. */
  function Recent<K(==)>(uses: seq<K>, n: nat): seq<K>
    requires n <= |uses|
  {
    if n == 0 then [] else Touch(Recent(uses, n - 1), uses[n - 1])
  }

  function Top<K(==)>(uses: seq<K>, capacity: nat): (top: seq<K>)
    ensures |top| <= capacity
  {
    Truncate(Recent(uses, |uses|), capacity)
  }

  function Truncate<K>(s: seq<K>, n: nat): (r: seq<K>)
    ensures |r| <= n
  {
    if |s| <= n then s else s[..n]
  }

  lemma TouchKeepsDistinct<K>(recent: seq<K>, k: K)
    requires Distinct(recent)
    ensures Distinct(Touch(recent, k))
  {
    var next := Touch(recent, k);
    if k in recent {
      var at := IndexOf(recent, k);
      forall i, j | 0 <= i < j < |next| ensures next[i] != next[j] {
        assert next[j] == if j <= at then recent[j - 1] else recent[j];
        assert i > 0 ==> next[i] == if i <= at then recent[i - 1] else recent[i];
      }
    }
  }

  lemma TouchMembers<K>(recent: seq<K>, k: K, q: K)
    requires Distinct(recent)
    ensures q in Touch(recent, k) <==> q == k || q in recent
  {
    var next := Touch(recent, k);
    if k in recent && q in recent && q != k {
      var at, from := IndexOf(recent, k), IndexOf(recent, q);
      assert next[if from < at then from + 1 else from] == q;
    }
  }

  lemma {:induction false} RecentIsDistinct<K>(uses: seq<K>, n: nat)
    requires n <= |uses|
    ensures Distinct(Recent(uses, n))
  {
    if n > 0 {
      RecentIsDistinct(uses, n - 1);
      TouchKeepsDistinct(Recent(uses, n - 1), uses[n - 1]);
    }
  }

  lemma {:induction false} RecentAgrees<K>(a: seq<K>, b: seq<K>, n: nat)
    requires n <= |a| && n <= |b| && forall i :: 0 <= i < n ==> a[i] == b[i]
    ensures Recent(a, n) == Recent(b, n)
  {
    if n > 0 {
      RecentAgrees(a, b, n - 1);
    }
  }

  lemma RecentAfterUse<K>(uses: seq<K>, k: K)
    ensures Recent(uses + [k], |uses| + 1) == Touch(Recent(uses, |uses|), k)
  {
    RecentAgrees(uses + [k], uses, |uses|);
  }

  lemma IndexIsUnique<K>(s: seq<K>, k: K, at: nat)
    requires Distinct(s) && at < |s| && s[at] == k
    ensures k in s && IndexOf(s, k) == at
  {
  }

  /** A bounded list that forgets the rest loses nothing: truncating before or after a use is the same. */
  lemma TruncateTouch<K>(recent: seq<K>, k: K, capacity: nat)
    requires 0 < capacity && Distinct(recent)
    ensures Truncate(Touch(recent, k), capacity) == Truncate(Touch(Truncate(recent, capacity), k), capacity)
  {
    InTruncated(recent, k, capacity);
    var kept := Truncate(recent, capacity);
    if k in kept {
      IndexIsUnique(recent, k, IndexOf(kept, k));
      DropInside(recent, IndexOf(recent, k), capacity);
    } else if k in recent {
      DropOutside(recent, IndexOf(recent, k), capacity);
    }
  }

  lemma DropInside<K>(s: seq<K>, at: nat, capacity: nat)
    requires at < |s| && at < capacity
    ensures Truncate(DropAt(s, at), capacity - 1) == Truncate(DropAt(Truncate(s, capacity), at), capacity - 1)
  {
  }

  lemma DropOutside<K>(s: seq<K>, at: nat, capacity: nat)
    requires 0 < capacity <= at < |s|
    ensures Truncate(DropAt(s, at), capacity - 1) == Truncate(Truncate(s, capacity), capacity - 1)
  {
  }

  lemma TopAfterUse<K>(uses: seq<K>, k: K, capacity: nat)
    requires 0 < capacity
    ensures Top(uses + [k], capacity) == Truncate(Touch(Top(uses, capacity), k), capacity)
  {
    RecentAfterUse(uses, k);
    RecentIsDistinct(uses, |uses|);
    TruncateTouch(Recent(uses, |uses|), k, capacity);
  }

  lemma TopIsDistinct<K>(uses: seq<K>, capacity: nat)
    ensures Distinct(Top(uses, capacity))
  {
    RecentIsDistinct(uses, |uses|);
  }

  // ---- what the order means ----

  /** The keys among the first `n` uses that come after the last use of `k`. */
  ghost function UsedSince<K>(uses: seq<K>, k: K, n: nat): set<K>
    requires n <= |uses|
  {
    if n == 0 || uses[n - 1] == k then {} else UsedSince(uses, k, n - 1) + {uses[n - 1]}
  }

  ghost function Before<K>(s: seq<K>, at: nat): set<K>
    requires at <= |s|
  {
    set i | 0 <= i < at :: s[i]
  }

  lemma {:induction false} BeforeCounts<K>(s: seq<K>, at: nat)
    requires at <= |s| && Distinct(s)
    ensures |Before(s, at)| == at
  {
    if at > 0 {
      BeforeCounts(s, at - 1);
      assert s[at - 1] !in Before(s, at - 1);
      assert Before(s, at) == Before(s, at - 1) + {s[at - 1]};
    }
  }

  lemma InBefore<K>(s: seq<K>, x: K, at: nat)
    requires at <= |s| && Distinct(s)
    ensures x in Before(s, at) <==> x in s && IndexOf(s, x) < at
  {
    if x in Before(s, at) {
      var i :| 0 <= i < at && s[i] == x;
      IndexIsUnique(s, x, i);
    }
  }

  /** A use moves the keys ahead of it one place back and leaves the rest where they are. */
  lemma TouchMoves<K>(recent: seq<K>, used: K, x: K)
    requires Distinct(recent) && x in recent && used != x
    ensures x in Touch(recent, used)
    ensures IndexOf(Touch(recent, used), x) ==
            if used in recent && IndexOf(recent, used) < IndexOf(recent, x) then IndexOf(recent, x)
              else IndexOf(recent, x) + 1
  {
    var next, from := Touch(recent, used), IndexOf(recent, x);
    TouchKeepsDistinct(recent, used);
    if used in recent && IndexOf(recent, used) < from {
      IndexIsUnique(next, x, from);
    } else {
      IndexIsUnique(next, x, from + 1);
    }
  }

  lemma TouchBeforeAt<K>(recent: seq<K>, used: K, k: K, x: K)
    requires Distinct(recent) && k in recent && used != k
    ensures var next := Touch(recent, used);
      k in next && (x in Before(next, IndexOf(next, k)) <==> x == used || x in Before(recent, IndexOf(recent, k)))
  {
    var next := Touch(recent, used);
    TouchKeepsDistinct(recent, used);
    TouchMoves(recent, used, k);
    InBefore(next, x, IndexOf(next, k));
    InBefore(recent, x, IndexOf(recent, k));
    TouchMembers(recent, used, x);
    if x == used {
      IndexIsUnique(next, used, 0);
    } else if x in recent {
      TouchMoves(recent, used, x);
    }
  }

  lemma TouchBefore<K>(recent: seq<K>, used: K, k: K)
    requires Distinct(recent) && k in recent && used != k
    ensures k in Touch(recent, used)
    ensures Before(Touch(recent, used), IndexOf(Touch(recent, used), k)) == Before(recent, IndexOf(recent, k)) + {used}
  {
    TouchBeforeAt(recent, used, k, used);
    forall x ensures x in Before(Touch(recent, used), IndexOf(Touch(recent, used), k)) <==>
                     x == used || x in Before(recent, IndexOf(recent, k))
    {
      TouchBeforeAt(recent, used, k, x);
    }
  }

  /** What precedes a key in the order is exactly what has been used since its own last use. */
  lemma {:induction false} RankIsReuseDistance<K>(uses: seq<K>, k: K, n: nat)
    requires n <= |uses|
    ensures k in uses[..n] <==> k in Recent(uses, n)
    ensures k in uses[..n] ==> Before(Recent(uses, n), IndexOf(Recent(uses, n), k)) == UsedSince(uses, k, n)
  {
    if n > 0 {
      RankIsReuseDistance(uses, k, n - 1);
      RecentIsDistinct(uses, n - 1);
      var recent, used := Recent(uses, n - 1), uses[n - 1];
      assert uses[..n] == uses[..n - 1] + [used];
      TouchMembers(recent, used, k);
      if used == k {
        RecentIsDistinct(uses, n);
        IndexIsUnique(Recent(uses, n), k, 0);
      } else if k in recent {
        TouchBefore(recent, used, k);
      }
    }
  }

  /** A key is among the `capacity` most recent exactly if it has been used, and fewer than `capacity`
      different keys have been used since. */
  lemma InTopIff<K>(uses: seq<K>, k: K, capacity: nat)
    ensures k in Top(uses, capacity) <==> k in uses && |UsedSince(uses, k, |uses|)| < capacity
  {
    var recent := Recent(uses, |uses|);
    RankIsReuseDistance(uses, k, |uses|);
    RecentIsDistinct(uses, |uses|);
    assert uses[..|uses|] == uses;
    if k in recent {
      BeforeCounts(recent, IndexOf(recent, k));
    }
    InTruncated(recent, k, capacity);
  }

  lemma InTruncated<K>(s: seq<K>, k: K, capacity: nat)
    requires Distinct(s)
    ensures k in Truncate(s, capacity) <==> k in s && IndexOf(s, k) < capacity
  {
    var kept := Truncate(s, capacity);
    assert forall i :: 0 <= i < |kept| ==> kept[i] == s[i];
    if k in kept {
      IndexIsUnique(s, k, IndexOf(kept, k));
    }
  }
}
