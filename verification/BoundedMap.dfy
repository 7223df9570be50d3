/** The bounded map itself: a hash map plus a recency queue with lazy deletion. */
module BoundedMaps {
  import opened Wrappers
  import opened RecencyCache

  /** Inserts a stamp into an ascending queue, before the first newer one. */
  function PlaceByGeneration<K>(queue: seq<(K, nat)>, stamp: (K, nat)): (placed: seq<(K, nat)>) {
    if queue == [] || stamp.1 < queue[0].1 then [stamp] + queue
    else [queue[0]] + PlaceByGeneration(queue[1..], stamp)
  }

  lemma OldestWithNew<K, V>(m: map<K, Entry<V>>, k: K, e: Entry<V>)
    requires DistinctGenerations(m[k := e]) && k !in m && m != map[]
    ensures Oldest(m[k := e]) == if e.generation < m[Oldest(m)].generation then k else Oldest(m)
  {
    var n := m[k := e];
    var o := Oldest(m);
    assert n[o] == m[o];
    OldestIs(n, if e.generation < m[o].generation then k else o);
  }

  lemma DropCommutes<K, V>(m: map<K, V>, k: K, e: V, o: K)
    requires k !in m && o in m
    ensures m[k := e] - {o} == (m - {o})[k := e] && m[k := e] - {k} == m
  {}

  /** Inserting the stamps of a map one by one, in any order, sorts them. */
  lemma {:induction false} PlaceStamp<K, V>(m: map<K, Entry<V>>, k: K, e: Entry<V>)
    requires DistinctGenerations(m[k := e]) && k !in m
    ensures PlaceByGeneration(Stamps(m), (k, e.generation)) == Stamps(m[k := e])
    decreases |m|
  {
    hide DistinctGenerations;
    var n := m[k := e];
    if m == map[] {
      assert Oldest(n) == k && n - {k} == map[];
    } else {
      var o := Oldest(m);
      OldestWithNew(m, k, e);
      DropCommutes(m, k, e, o);
      RemovedSize(m, o);
      if e.generation >= m[o].generation {
        DistinctAfterDrop(n, o);
        PlaceStamp(m - {o}, k, e);
      }
    }
  }

  class BoundedMap<K(==), V> {
    const maxEntries: nat
    var nextGeneration: nat
    var order: seq<(K, nat)>
    var entries: map<K, Entry<V>>

    /** The state the fields hold. */
    ghost function Model(): State<K, V>
      reads this
    {
      State(maxEntries, nextGeneration, order, entries)
    }

    ghost predicate Valid()
      reads this
    {
      Inv(Model())
    }

    constructor (max: nat)
      ensures Valid() && Model() == Empty(max)
    {
      maxEntries := if max >= 1 then max else 1;
      nextGeneration := 1;
      order := [];
      entries := map[];
    }

    /** Reading does not refresh. */
    method Get(key: K) returns (value: Option<V>)
      requires Valid()
      ensures value == if key in Abs(Model()).values then Some(Abs(Model()).values[key]) else None
    {
      value := if key in entries then Some(entries[key].value) else None;
    }

    method ContainsKey(key: K) returns (present: bool)
      requires Valid()
      ensures present <==> key in ByAge(entries)
    {
      ByAgeMembers(entries, key);
      present := key in entries;
    }

    method Len() returns (n: nat)
      requires Valid()
      ensures n == |Abs(Model()).recency| <= SizeBound(maxEntries)
    {
      n := |entries|;
    }

    method GetClonedRefresh(key: K) returns (value: Option<V>)
      requires Valid()
      modifies this
      ensures Valid() && Model() == Step(old(Model()), Refresh(key), false)
      ensures value == if key in old(entries) then Some(old(entries[key].value)) else None
      ensures Abs(Model()) == LruStep(old(Abs(Model())), Refresh(key), maxEntries)
    {
      StepKeepsInv(Model(), Refresh(key));
      StepIsLruIff(Model(), Refresh(key), false);
      if key !in entries { return None; }
      value := Some(entries[key].value);
      Touch(key);
    }

    /** The reference handed out for `key` is written with `value`. */
    method GetMut(key: K, value: V) returns (found: bool)
      requires Valid()
      modifies this
      ensures Valid() && Model() == Step(old(Model()), Modify(key, value), false)
      ensures found == (key in old(entries))
      ensures Abs(Model()) == LruStep(old(Abs(Model())), Modify(key, value), maxEntries)
    {
      ghost var s := Model();
      if key !in entries {
        StepIsLruIff(s, Modify(key, value), false);
        return false;
      }
      var generation := AllocateGeneration();
      PushThenStamp(key, value, generation);
      found := true;
      assert Model() == Step(s, Modify(key, value), false);
      StepKeepsInv(s, Modify(key, value));
      StepIsLruIff(s, Modify(key, value), false);
    }

    /** The list changes as a plain recency list does exactly when room does not have to
        be made while the oldest key is hidden. */
    method Insert(key: K, value: V) returns (previous: Option<V>)
      requires Valid()
      modifies this
      ensures Valid() && Model() == Step(old(Model()), RecencyCache.Insert(key, value), false)
      ensures previous == if key in old(entries) then Some(old(entries[key].value)) else None
      ensures Abs(Model()) == LruStep(old(Abs(Model())), RecencyCache.Insert(key, value), maxEntries)
        <==> !EvictsWrongKey(old(Model()), RecencyCache.Insert(key, value))
    {
      ghost var s := Model();
      ghost var op: Op<K, V> := RecencyCache.Insert(key, value);
      var generation := AllocateGeneration();
      if key in entries {
        previous := Some(entries[key].value);
        PushThenStamp(key, value, generation);
      } else {
        if |entries| >= maxEntries {
          ghost var now := nextGeneration;
          assert Model() == s.(nextGeneration := now);
          EvictOldest();
          EvictedIgnoresClock(s, now);
          EvictedKeepsQueue(s);
          assert Model() == Evicted(s).(nextGeneration := now);
        }
        PushThenStamp(key, value, generation);
        previous := None;
      }
      assert Model() == Step(s, op, false);
      StepKeepsInv(s, op);
      StepIsLruIff(s, op, false);
    }

    method Remove(key: K) returns (value: Option<V>)
      requires Valid()
      modifies this
      ensures Valid() && Model() == Step(old(Model()), RecencyCache.Remove(key), false)
      ensures value == if key in old(entries) then Some(old(entries[key].value)) else None
      ensures Abs(Model()) == LruStep(old(Abs(Model())), RecencyCache.Remove(key), maxEntries)
    {
      StepKeepsInv(Model(), RecencyCache.Remove(key));
      StepIsLruIff(Model(), RecencyCache.Remove(key), false);
      if key !in entries { return None; }
      RemoveKeepsInv(Model(), key);
      value := Some(entries[key].value);
      entries := entries - {key};
      CompactOrderIfNeeded();
    }

    method EvictOldest()
      modifies this
      ensures Model() == Evicted(old(Model()))
    {
      while order != []
        invariant nextGeneration == old(nextGeneration)
        invariant Evicted(Model()) == Evicted(old(Model()))
        decreases |order|
      {
        var (oldest, generation) := order[0];
        order := order[1..];
        var shouldRemove := oldest in entries && entries[oldest].generation == generation;
        if shouldRemove {
          entries := entries - {oldest};
          break;
        }
      }
    }

    method Touch(key: K)
      requires Valid()
      modifies this
      ensures Model() == Step(old(Model()), Refresh(key), false)
    {
      if key !in entries { return; }
      var generation := AllocateGeneration();
      PushThenStamp(key, entries[key].value, generation);
    }

    /** The end of every write: the stamp is queued, the queue compacted if needed, and
        only then does the entry get its new generation. */
    method PushThenStamp(key: K, value: V, generation: nat)
      requires DistinctGenerations(entries) && nextGeneration == generation + 1
      modifies this`order, this`entries
      ensures Model() == Written(old(Model()).(nextGeneration := generation), key, value, false)
    {
      order := order + [(key, generation)];
      CompactOrderIfNeeded();
      entries := entries[key := Entry(value, generation)];
    }

    method AllocateGeneration() returns (generation: nat)
      modifies this`nextGeneration
      ensures generation == old(nextGeneration) && nextGeneration == generation + 1
    {
      generation := nextGeneration;
      nextGeneration := nextGeneration + 1;
    }

    /** The hash map is visited in an unspecified order, then sorted by generation. */
    method CompactOrderIfNeeded()
      requires DistinctGenerations(entries)
      modifies this`order
      ensures Model() == Compacted(old(Model()))
    {
      hide DistinctGenerations, Stamps, PlaceByGeneration;
      var maxOrderLen := 4 * maxEntries + 16;
      if |order| <= maxOrderLen { return; }
      NoStamps<K, V>();
      var active: seq<(K, nat)> := [];
      var remaining := entries.Keys;
      assert entries - remaining == map[];
      while remaining != {}
        invariant remaining <= entries.Keys
        invariant active == Stamps(entries - remaining)
        decreases remaining
      {
        var k :| k in remaining;
        PlaceNext(entries, remaining, k);
        active, remaining := PlaceByGeneration(active, (k, entries[k].generation)), remaining - {k};
      }
      assert entries - {} == entries;
      order := active;
    }
  }

  lemma NoStamps<K, V>()
    ensures Stamps<K, V>(map[]) == []
  {}

  lemma PlaceNext<K, V>(m: map<K, Entry<V>>, remaining: set<K>, k: K)
    requires DistinctGenerations(m) && k in m && k in remaining
    ensures PlaceByGeneration(Stamps(m - remaining), (k, m[k].generation)) == Stamps(m - (remaining - {k}))
  {
    var shown := m - remaining;
    assert DistinctGenerations(m - (remaining - {k}));
    hide DistinctGenerations;
    assert shown[k := m[k]] == m - (remaining - {k});
    PlaceStamp(shown, k, m[k]);
  }

  lemma {:induction false} EvictedIgnoresClock<K, V>(s: State<K, V>, now: nat)
    ensures Evicted(s.(nextGeneration := now)) == Evicted(s).(nextGeneration := now)
    decreases |s.order|
  {
    if s.order != [] && !Live(s.entries, s.order[0]) {
      EvictedIgnoresClock(s.(order := s.order[1..]), now);
    }
  }
}
