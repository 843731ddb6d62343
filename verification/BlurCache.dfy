/** src/capture/annotation_raster.cpp: the four-slot cache in front of the region blur. */
module BlurCache {
  import opened Wrappers
  import opened RecentlyUsed

  const CAPACITY: nat := 4

  /** A blur request: the source surface, the region and the strength. */
  datatype Key = Key(source: int, x: int, y: int, width: int, height: int, strength: real)

  datatype Picture<Surface> = Picture(surface: Surface, step: int)

  datatype Slot<Surface> = Empty | Filled(key: Key, picture: Picture<Surface>, stamp: int)

  /** The slots hold the keys of `top`; `order` lists the slots from the latest stamp to the oldest. */
  ghost predicate Holds<S>(slots: seq<Slot<S>>, order: seq<nat>, top: seq<Key>, clock: int) {
    && |slots| == CAPACITY && |order| == |top| <= CAPACITY
    && (forall s :: 0 <= s < CAPACITY ==> (slots[s].Filled? <==> s < |order|))
    && (forall s :: 0 <= s < |order| ==> slots[s].stamp <= clock && s in order)
    && (forall a :: 0 <= a < |order| ==> order[a] < |order| && slots[order[a]].key == top[a])
    && (forall a, b :: 0 <= a < b < |order| ==> slots[order[b]].stamp < slots[order[a]].stamp)
  }

  /** Every slot holds what the renderer gives for its key. */
  ghost predicate Answers<S>(slots: seq<Slot<S>>, render: Key -> Option<Picture<S>>) {
    forall s :: 0 <= s < |slots| && slots[s].Filled? ==> render(slots[s].key) == Some(slots[s].picture)
  }

  /** Where the entry at place `a > 0` was before the one at `at` moved to the front. */
  function Was(a: nat, at: nat): nat
    requires 0 < a
  {
    if a <= at then a - 1 else a
  }

  lemma DropMoves<T>(s: seq<T>, at: nat, a: nat)
    requires at < |s| && 0 < a < |s|
    ensures ([s[at]] + DropAt(s, at))[a] == s[Was(a, at)]
  {
  }

  lemma DropKeeps(order: seq<nat>, at: nat, s: nat)
    requires at < |order| && s in order
    ensures s in [order[at]] + DropAt(order, at)
  {
    var a := IndexOf(order, s);
    if a != at {
      DropMoves(order, at, if a < at then a + 1 else a);
    }
  }

  /** After a hit the order of the stamps is the order of the moved entries. */
  lemma HitOrder<S>(slots: seq<Slot<S>>, order: seq<nat>, top: seq<Key>, clock: int, at: nat, after: int, a: nat,
                    b: nat)
    requires Holds(slots, order, top, clock) && at < |order| && clock < after && a < b < |order|
    ensures var order' := [order[at]] + DropAt(order, at);
      var slots' := slots[order[at] := slots[order[at]].(stamp := after)];
      slots'[order'[b]].stamp < slots'[order'[a]].stamp
  {
    var order' := [order[at]] + DropAt(order, at);
    DropMoves(order, at, b);
    var from := Was(b, at);
    assert slots[order[from]].stamp != slots[order[at]].stamp;
    if a > 0 {
      DropMoves(order, at, a);
      assert slots[order[Was(a, at)]].stamp != slots[order[at]].stamp;
    }
  }

  lemma HitKeys<S>(slots: seq<Slot<S>>, order: seq<nat>, top: seq<Key>, clock: int, at: nat, after: int, a: nat)
    requires Holds(slots, order, top, clock) && at < |order| && a < |order|
    ensures var order' := [order[at]] + DropAt(order, at);
      var slots' := slots[order[at] := slots[order[at]].(stamp := after)];
      order'[a] < |order| && slots'[order'[a]].Filled? && slots'[order'[a]].key == ([top[at]] + DropAt(top, at))[a]
  {
    if a > 0 {
      DropMoves(order, at, a);
      DropMoves(top, at, a);
    }
  }

  lemma HitStep<S>(slots: seq<Slot<S>>, order: seq<nat>, top: seq<Key>, clock: int, at: nat, after: int)
    requires Holds(slots, order, top, clock) && at < |order| && clock < after
    ensures Holds(slots[order[at] := slots[order[at]].(stamp := after)],
                  [order[at]] + DropAt(order, at), [top[at]] + DropAt(top, at), after)
  {
    var order' := [order[at]] + DropAt(order, at);
    forall s | 0 <= s < |order| ensures s in order' {
      DropKeeps(order, at, s);
    }
    forall a | 0 <= a < |order|
      ensures order'[a] < |order| && slots[order'[a]].Filled?
      ensures slots[order[at] := slots[order[at]].(stamp := after)][order'[a]].key == ([top[at]] + DropAt(top, at))[a]
    {
      HitKeys(slots, order, top, clock, at, after, a);
    }
    forall a, b | 0 <= a < b < |order|
      ensures var slots' := slots[order[at] := slots[order[at]].(stamp := after)];
        slots'[order'[b]].stamp < slots'[order'[a]].stamp
    {
      HitKeys(slots, order, top, clock, at, after, a);
      HitKeys(slots, order, top, clock, at, after, b);
      HitOrder(slots, order, top, clock, at, after, a, b);
    }
  }

  lemma FillStep<S>(slots: seq<Slot<S>>, order: seq<nat>, top: seq<Key>, clock: int, key: Key, picture: Picture<S>,
                    after: int)
    requires Holds(slots, order, top, clock) && |order| < CAPACITY && clock < after
    ensures Holds(slots[|order| := Filled(key, picture, after)], [|order| as nat] + order, [key] + top, after)
  {
    var order' := [|order| as nat] + order;
    forall s | 0 <= s < |order'| ensures s in order' {
      if s < |order| {
        var a := IndexOf(order, s);
        assert order'[a + 1] == s;
      } else {
        assert order'[0] == s;
      }
    }
  }

  lemma EvictStep<S>(slots: seq<Slot<S>>, order: seq<nat>, top: seq<Key>, clock: int, key: Key, picture: Picture<S>,
                     after: int)
    requires Holds(slots, order, top, clock) && |order| == CAPACITY && clock < after
    ensures Holds(slots[order[CAPACITY - 1] := Filled(key, picture, after)],
                  [order[CAPACITY - 1]] + order[..CAPACITY - 1], [key] + top[..CAPACITY - 1], after)
  {
    var last := order[CAPACITY - 1];
    var order' := [last] + order[..CAPACITY - 1];
    forall s | 0 <= s < CAPACITY ensures s in order' {
      var a := IndexOf(order, s);
      assert order'[if a == CAPACITY - 1 then 0 else a + 1] == s;
    }
    forall a | 0 <= a < CAPACITY - 1 ensures order[a] != last {
      assert slots[order[a]].stamp != slots[last].stamp;
    }
  }

  lemma NoSlotHolds<S>(slots: seq<Slot<S>>, order: seq<nat>, top: seq<Key>, clock: int, key: Key)
    requires Holds(slots, order, top, clock)
    requires forall s :: 0 <= s < |slots| ==> !(slots[s].Filled? && slots[s].key == key)
    ensures key !in top
  {
    forall a | 0 <= a < |top| ensures top[a] != key {
      assert slots[order[a]].Filled?;
    }
  }

  /** The slot the eviction scan picks is the next free one, or the one with the oldest stamp. */
  ghost predicate IsVictim<S>(slots: seq<Slot<S>>, v: nat) {
    && v < |slots|
    && if slots[v].Empty? then forall j :: 0 <= j < v ==> slots[j].Filled?
       else forall j :: 0 <= j < |slots| ==> slots[j].Filled? && slots[v].stamp <= slots[j].stamp
  }

  lemma VictimIsLast<S>(slots: seq<Slot<S>>, order: seq<nat>, top: seq<Key>, clock: int, v: nat)
    requires Holds(slots, order, top, clock) && IsVictim(slots, v)
    ensures v == if |order| < CAPACITY then |order| else order[CAPACITY - 1]
  {
    if |order| == CAPACITY {
      var a :| 0 <= a < |order| && order[a] == v;
      assert slots[v].stamp <= slots[order[CAPACITY - 1]].stamp;
    } else {
      assert !slots[|order|].Filled?;
    }
  }

  lemma TopAfterHit(uses: seq<Key>, at: nat)
    requires at < |Top(uses, CAPACITY)|
    ensures var top := Top(uses, CAPACITY); Top(uses + [top[at]], CAPACITY) == [top[at]] + DropAt(top, at)
  {
    var top := Top(uses, CAPACITY);
    TopIsDistinct(uses, CAPACITY);
    IndexIsUnique(top, top[at], at);
    TopAfterUse(uses, top[at], CAPACITY);
  }

  lemma TopAfterMiss(uses: seq<Key>, key: Key)
    requires key !in Top(uses, CAPACITY)
    ensures var top := Top(uses, CAPACITY);
      Top(uses + [key], CAPACITY) == [key] + (if |top| < CAPACITY then top else top[..CAPACITY - 1])
  {
    var top := Top(uses, CAPACITY);
    TopAfterUse(uses, key, CAPACITY);
    assert |top| == CAPACITY ==> ([key] + top)[..CAPACITY] == [key] + top[..CAPACITY - 1];
  }

  class Cache<Surface> {
    const slots: array<Slot<Surface>>
    const render: Key -> Option<Picture<Surface>>
    var clock: int
    // The answered requests since the last clear, and the slots in order of their stamps.
    ghost var uses: seq<Key>
    ghost var order: seq<nat>

    ghost predicate Valid()
      reads this, slots
    {
      Holds(slots[..], order, Top(uses, CAPACITY), clock) && Answers(slots[..], render)
    }

    constructor (render: Key -> Option<Picture<Surface>>)
      ensures Valid() && fresh(slots) && uses == [] && this.render == render
    {
      slots := new Slot<Surface>[CAPACITY](_ => Empty);
      this.render := render;
      clock, uses, order := 0, [], [];
    }

    /** The first slot that holds the key. */
    method Find(key: Key) returns (found: Option<nat>)
      requires Valid()
      ensures found.Some? <==> key in Top(uses, CAPACITY)
      ensures found.Some? ==> found.value < slots.Length && slots[found.value].Filled? && slots[found.value].key == key
    {
      found := None;
      for i := 0 to slots.Length
        invariant forall j :: 0 <= j < i ==> !(slots[j].Filled? && slots[j].key == key)
      {
        if slots[i].Filled? && slots[i].key == key {
          found := Some(i);
          ghost var a := IndexOf(order, i);
          assert Top(uses, CAPACITY)[a] == key;
          return;
        }
      }
      NoSlotHolds(slots[..], order, Top(uses, CAPACITY), clock, key);
    }

    method Victim() returns (v: nat)
      requires slots.Length == CAPACITY
      ensures IsVictim(slots[..], v)
    {
      v := 0;
      for i := 0 to slots.Length
        invariant 0 <= v < slots.Length
        invariant if i == 0 then v == 0 else slots[v].Filled?
        invariant forall j :: 0 <= j < i ==> slots[j].Filled? && slots[v].stamp <= slots[j].stamp
      {
        if slots[i].Empty? {
          return i;
        }
        if slots[i].stamp < slots[v].stamp {
          v := i;
        }
      }
    }

    method Hit(key: Key, found: nat) returns (answer: Option<Picture<Surface>>)
      requires found < slots.Length && slots[found].Filled? && slots[found].key == key
      requires Holds(slots[..], order, Top(uses, CAPACITY), clock - 1) && Answers(slots[..], render)
      modifies this`uses, this`order, slots
      ensures Valid() && answer == render(key) && uses == old(uses) + [key]
    {
      ghost var at := IndexOf(order, found);
      HitStep(slots[..], order, Top(uses, CAPACITY), clock - 1, at, clock);
      TopAfterHit(uses, at);
      slots[found] := slots[found].(stamp := clock);
      order, uses := [order[at]] + DropAt(order, at), uses + [key];
      answer := Some(slots[found].picture);
    }

    method Insert(key: Key, picture: Picture<Surface>)
      requires Holds(slots[..], order, Top(uses, CAPACITY), clock - 1) && Answers(slots[..], render)
      requires key !in Top(uses, CAPACITY) && render(key) == Some(picture)
      modifies this`uses, this`order, slots
      ensures Valid() && uses == old(uses) + [key]
    {
      var v := Victim();
      ghost var top := Top(uses, CAPACITY);
      VictimIsLast(slots[..], order, top, clock - 1, v);
      TopAfterMiss(uses, key);
      if |order| < CAPACITY {
        FillStep(slots[..], order, top, clock - 1, key, picture, clock);
        order := [|order| as nat] + order;
      } else {
        EvictStep(slots[..], order, top, clock - 1, key, picture, clock);
        order := [order[CAPACITY - 1]] + order[..CAPACITY - 1];
      }
      slots[v] := Filled(key, picture, clock);
      uses := uses + [key];
    }

    method Clear()
      requires Valid()
      modifies this`uses, this`order, slots
      ensures Valid() && uses == []
    {
      for i := 0 to slots.Length
        invariant forall j :: 0 <= j < i ==> slots[j].Empty?
      {
        slots[i] := Empty;
      }
      uses, order := [], [];
    }

    /** Every answer is the one the renderer would give; it runs only when the key is not among the
        four most recently used, and what it cannot render leaves the cache as it was. */
    method CachedBlur(key: Key) returns (answer: Option<Picture<Surface>>, rendered: bool)
      requires Valid()
      modifies this, slots
      ensures Valid()
      ensures answer == render(key)
      ensures rendered <==> key !in Top(old(uses), CAPACITY)
      ensures rendered <==> !(key in old(uses) && |UsedSince(old(uses), key, |old(uses)|)| < 4)
      ensures uses == if answer.Some? then old(uses) + [key] else old(uses)
      ensures answer.None? ==> slots[..] == old(slots[..])
    {
      InTopIff(uses, key, CAPACITY);
      var found := Find(key);
      clock := clock + 1;
      if found.Some? {
        rendered := false;
        answer := Hit(key, found.value);
      } else {
        rendered, answer := true, render(key);
        if answer.Some? {
          Insert(key, answer.value);
        }
      }
    }
  }
}
