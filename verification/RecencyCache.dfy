/**
 The states of a `BoundedMap`, what each operation does to a state, and how those
 states relate to a plain least-recently-used list.

 `Late` variants compact the queue after the new generation is stored; the program
 compacts before (`late == false`).
 */
module RecencyCache {
  import opened Wrappers
  import opened Sequences

  datatype Entry<+V> = Entry(value: V, generation: nat)

  /** `order` holds (key, generation) stamps, oldest first; a stamp is live when its
      key still carries that generation. */
  datatype State<K, +V> = State(
    maxEntries: nat, nextGeneration: nat, order: seq<(K, nat)>, entries: map<K, Entry<V>>)

  datatype Op<+K, +V> = Insert(key: K, value: V) | Refresh(key: K) | Modify(key: K, value: V) | Remove(key: K)

  // ----- keys by age

  ghost predicate DistinctGenerations<K, V>(m: map<K, Entry<V>>) {
    forall k, l {:trigger m[k], m[l]} :: k in m && l in m && k != l ==> m[k].generation != m[l].generation
  }

  lemma RemovedSize<K, V>(m: map<K, V>, k: K)
    requires k in m
    ensures |m - {k}| == |m| - 1
  {
    assert (m - {k}).Keys == m.Keys - {k};
  }

  ghost predicate IsOldest<K, V>(m: map<K, Entry<V>>, o: K) {
    o in m && forall l :: l in m ==> m[o].generation <= m[l].generation
  }

  /** Some key has the least generation. */
  lemma {:induction false} FindOldest<K, V>(m: map<K, Entry<V>>) returns (o: K)
    requires m != map[]
    ensures IsOldest(m, o)
    decreases |m|
  {
    var k :| k in m;
    o := k;
    var rest := m - {k};
    if rest != map[] {
      RemovedSize(m, k);
      o := FindOldest(rest);
      OlderIsOldest(m, k, o);
      if m[k].generation <= m[o].generation { o := k; }
    } else {
      assert forall l :: l in m ==> l == k || l in rest;
    }
  }

  lemma OlderIsOldest<K, V>(m: map<K, Entry<V>>, k: K, o: K)
    requires k in m && IsOldest(m - {k}, o)
    ensures o in m && IsOldest(m, if m[k].generation <= m[o].generation then k else o)
  {
    assert forall l :: l in m ==> l == k || l in m - {k};
  }

  lemma OldestExists<K, V>(m: map<K, Entry<V>>)
    requires m != map[]
    ensures exists o :: IsOldest(m, o)
  {
    var o := FindOldest(m);
  }

  ghost function Oldest<K, V>(m: map<K, Entry<V>>): (k: K)
    requires m != map[]
    ensures k in m && forall l :: l in m ==> m[k].generation <= m[l].generation
  {
    OldestExists(m);
    var k :| IsOldest(m, k);
    k
  }

  /** The keys of `m`, oldest generation first. */
  ghost function ByAge<K, V>(m: map<K, Entry<V>>): (q: seq<K>)
    ensures |q| == |m|
    decreases |m|
  {
    if m == map[] then []
    else
      var rest := m - {Oldest(m)};
      assert rest.Keys == m.Keys - {Oldest(m)};
      [Oldest(m)] + ByAge(rest)
  }

  lemma OldestIs<K, V>(m: map<K, Entry<V>>, k: K)
    requires DistinctGenerations(m) && k in m
    requires forall l :: l in m ==> m[k].generation <= m[l].generation
    ensures Oldest(m) == k
  {}

  lemma {:induction false} ByAgeMembers<K, V>(m: map<K, Entry<V>>, k: K)
    ensures k in ByAge(m) <==> k in m
    decreases |m|
  {
    if m != map[] {
      var o := Oldest(m);
      assert (m - {o}).Keys == m.Keys - {o};
      ByAgeMembers(m - {o}, k);
      InCons(o, ByAge(m - {o}), k);
    }
  }

  function Without<K(==)>(q: seq<K>, k: K): (r: seq<K>) {
    if q == [] then [] else if q[0] == k then Without(q[1..], k) else [q[0]] + Without(q[1..], k)
  }

  lemma {:induction false} WithoutAbsent<K>(q: seq<K>, k: K)
    requires k !in q
    ensures Without(q, k) == q
  {
    if q != [] {
      assert q[0] in q;
      WithoutAbsent(q[1..], k);
    }
  }

  lemma WithoutCons<K>(head: K, tail: seq<K>, k: K)
    ensures Without([head] + tail, k) == if head == k then Without(tail, k) else [head] + Without(tail, k)
  {
    assert ([head] + tail)[1..] == tail;
  }

  lemma OldestAfterDrop<K, V>(m: map<K, Entry<V>>, k: K)
    requires DistinctGenerations(m) && m != map[] && Oldest(m) != k
    ensures m - {k} != map[] && Oldest(m - {k}) == Oldest(m)
    ensures (m - {k}) - {Oldest(m)} == (m - {Oldest(m)}) - {k}
  {
    assert Oldest(m) in (m - {k});
    OldestIs(m - {k}, Oldest(m));
  }

  /** Dropping a key leaves the ages of the others alone. */
  lemma {:induction false} ByAgeWithout<K, V>(m: map<K, Entry<V>>, k: K)
    requires DistinctGenerations(m)
    ensures ByAge(m - {k}) == Without(ByAge(m), k)
    decreases |m|
  {
    if k !in m {
      ByAgeMembers(m, k);
      WithoutAbsent(ByAge(m), k);
      assert m - {k} == m;
    } else {
      var o := Oldest(m);
      RemovedSize(m, o);
      WithoutCons(o, ByAge(m - {o}), k);
      if o == k {
        ByAgeMembers(m - {k}, k);
        WithoutAbsent(ByAge(m - {k}), k);
      } else {
        OldestAfterDrop(m, k);
        ByAgeWithout(m - {o}, k);
      }
    }
  }

  lemma OldestAfterStamp<K, V>(m: map<K, Entry<V>>, k: K, e: Entry<V>)
    requires DistinctGenerations(m) && m != map[] && k !in m
    requires forall l :: l in m ==> m[l].generation < e.generation
    ensures Oldest(m[k := e]) == Oldest(m)
    ensures m[k := e] - {Oldest(m)} == (m - {Oldest(m)})[k := e]
  {
    StampedKeepsGenerations(m, k, e);
    OldestIs(m[k := e], Oldest(m));
  }

  lemma StampedKeepsGenerations<K, V>(m: map<K, Entry<V>>, key: K, e: Entry<V>)
    requires DistinctGenerations(m) && forall k :: k in m ==> m[k].generation < e.generation
    ensures DistinctGenerations(m[key := e])
  {}

  lemma DistinctAfterDrop<K, V>(m: map<K, Entry<V>>, k: K)
    requires DistinctGenerations(m)
    ensures DistinctGenerations(m - {k})
  {}

  lemma ConsSnoc<T>(head: T, q: seq<T>, last: T)
    ensures [head] + (q + [last]) == ([head] + q) + [last]
  {}

  /** A key newer than all others goes to the end. */
  lemma {:induction false} ByAgeNewest<K, V>(m: map<K, Entry<V>>, k: K, e: Entry<V>)
    requires DistinctGenerations(m) && k !in m
    requires forall l :: l in m ==> m[l].generation < e.generation
    ensures ByAge(m[k := e]) == ByAge(m) + [k]
    decreases |m|
  {
    hide DistinctGenerations;
    if m == map[] {
      assert m[k := e] - {k} == map[];
    } else {
      var o := Oldest(m);
      RemovedSize(m, o);
      OldestAfterStamp(m, k, e);
      DistinctAfterDrop(m, o);
      ByAgeNewest(m - {o}, k, e);
      ConsSnoc(o, ByAge(m - {o}), k);
    }
  }

  // ----- operations

  function QueueLimit(maxEntries: nat): nat { 4 * maxEntries + 16 }

  ghost function Empty<K, V>(maxEntries: nat): State<K, V> {
    State(if maxEntries >= 1 then maxEntries else 1, 1, [], map[])
  }

  ghost predicate Live<K, V>(m: map<K, Entry<V>>, stamp: (K, nat)) {
    stamp.0 in m && m[stamp.0].generation == stamp.1
  }

  /** The live stamps, oldest first. */
  ghost function Stamps<K, V>(m: map<K, Entry<V>>): (order: seq<(K, nat)>)
    ensures |order| == |m|
    decreases |m|
  {
    if m == map[] then []
    else
      var o := Oldest(m);
      assert (m - {o}).Keys == m.Keys - {o};
      [(o, m[o].generation)] + Stamps(m - {o})
  }

  /** The queue is rebuilt from the live entries once it has grown past its limit. */
  ghost function Compacted<K, V>(s: State<K, V>): State<K, V> {
    if |s.order| <= QueueLimit(s.maxEntries) then s else s.(order := Stamps(s.entries))
  }

  /** Stamps are popped up to and including the first live one, whose key is dropped. */
  ghost function Evicted<K, V>(s: State<K, V>): State<K, V>
    decreases |s.order|
  {
    if s.order == [] then s
    else
      var popped := s.(order := s.order[1..]);
      if Live(s.entries, s.order[0]) then popped.(entries := s.entries - {s.order[0].0})
      else Evicted(popped)
  }

  ghost function Pushed<K, V>(s: State<K, V>, key: K): State<K, V> {
    s.(order := s.order + [(key, s.nextGeneration)], nextGeneration := s.nextGeneration + 1)
  }

  ghost predicate GenerationsBounded<K, V>(s: State<K, V>) {
    && (forall k :: k in s.entries ==> s.entries[k].generation < s.nextGeneration)
    && (forall i :: 0 <= i < |s.order| ==> s.order[i].1 < s.nextGeneration)
  }

  /** A key is stamped with a new generation and given a value. */
  ghost function Written<K, V>(s: State<K, V>, key: K, value: V, late: bool): State<K, V> {
    var p := Pushed(s, key);
    var stamped := s.entries[key := Entry(value, s.nextGeneration)];
    if late then Compacted(p.(entries := stamped)) else Compacted(p).(entries := stamped)
  }

  /** Room is made when a new key is inserted into a full cache. */
  ghost function EvictIfFull<K, V>(s: State<K, V>, op: Op<K, V>): State<K, V> {
    if op.Insert? && op.key !in s.entries && |s.entries| >= s.maxEntries then Evicted(s) else s
  }

  ghost function Step<K, V>(s: State<K, V>, op: Op<K, V>, late: bool): State<K, V> {
    match op
    case Insert(k, v) => Written(EvictIfFull(s, op), k, v, late)
    case Refresh(k) => if k in s.entries then Written(s, k, s.entries[k].value, late) else s
    case Modify(k, v) => if k in s.entries then Written(s, k, v, late) else s
    case Remove(k) => if k in s.entries then Compacted(s.(entries := s.entries - {k})) else s
  }

  // ----- what every operation keeps

  ghost predicate Ascending<K>(order: seq<(K, nat)>) {
    forall i, j :: 0 <= i < j < |order| ==> order[i].1 < order[j].1
  }

  /** Live keys whose stamp is missing from the queue: eviction cannot see them. */
  ghost function Hidden<K, V>(s: State<K, V>): set<K> {
    set k | k in s.entries && (k, s.entries[k].generation) !in s.order
  }

  ghost predicate AtMostOne<K>(keys: set<K>) {
    forall k, l :: k in keys && l in keys ==> k == l
  }

  ghost predicate Inv<K, V>(s: State<K, V>) {
    && s.maxEntries >= 1
    && DistinctGenerations(s.entries)
    && GenerationsBounded(s)
    && Ascending(s.order)
    && AtMostOne(Hidden(s))
    && |s.order| <= QueueLimit(s.maxEntries)
    && |s.entries| <= (if s.maxEntries >= 2 then s.maxEntries else 2)
  }

  /** The invariant of the variant that compacts late: nothing is ever hidden. */
  ghost predicate LateInv<K, V>(s: State<K, V>) {
    Inv(s) && Hidden(s) == {} && |s.entries| <= s.maxEntries
  }

  lemma {:induction false} StampsAreLive<K, V>(m: map<K, Entry<V>>, stamp: (K, nat))
    ensures stamp in Stamps(m) <==> Live(m, stamp)
    decreases |m|
  {
    if m != map[] {
      var o := Oldest(m);
      assert (m - {o}).Keys == m.Keys - {o};
      StampsAreLive(m - {o}, stamp);
      InCons((o, m[o].generation), Stamps(m - {o}), stamp);
    }
  }

  lemma {:induction false} StampsAscend<K, V>(m: map<K, Entry<V>>)
    requires DistinctGenerations(m)
    ensures Ascending(Stamps(m))
    decreases |m|
  {
    if m != map[] {
      var o := Oldest(m);
      var rest := Stamps(m - {o});
      assert (m - {o}).Keys == m.Keys - {o};
      StampsAscend(m - {o});
      forall j | 0 <= j < |rest| ensures m[o].generation < rest[j].1 {
        StampsAreLive(m - {o}, rest[j]);
      }
    }
  }

  /** Whether the next write rebuilds the queue. */
  ghost predicate Rebuilds<K, V>(s: State<K, V>) {
    |s.order| >= 4 * s.maxEntries + 16
  }

  /** A write hides its own key exactly when it rebuilds the queue, and then restores
      whatever was hidden before. */
  lemma WrittenHides<K, V>(s: State<K, V>, key: K, value: V)
    requires GenerationsBounded(s)
    ensures Hidden(Written(s, key, value, false)) == if Rebuilds(s) then {key} else Hidden(s) - {key}
  {
    var w := Written(s, key, value, false);
    forall k ensures k in Hidden(w) <==> k in (if Rebuilds(s) then {key} else Hidden(s) - {key}) {
      if k in w.entries {
        var stamp := (k, w.entries[k].generation);
        if Rebuilds(s) {
          assert w.order == Stamps(s.entries);
          StampsAreLive(s.entries, stamp);
        } else {
          InSnoc(s.order, (key, s.nextGeneration), stamp);
        }
      }
    }
  }

  lemma LateWriteHidesNothing<K, V>(s: State<K, V>, key: K, value: V)
    requires Hidden(s) == {}
    ensures Hidden(Written(s, key, value, true)) == {}
  {
    var w := Written(s, key, value, true);
    forall k | k in w.entries ensures (k, w.entries[k].generation) in w.order {
      var stamp := (k, w.entries[k].generation);
      if Rebuilds(s) {
        StampsAreLive(w.entries, stamp);
      } else {
        InSnoc(s.order, (key, s.nextGeneration), stamp);
        assert k !in Hidden(s);
      }
    }
  }

  lemma StampsBounded<K, V>(m: map<K, Entry<V>>, bound: nat)
    requires forall k :: k in m ==> m[k].generation < bound
    ensures forall i :: 0 <= i < |Stamps(m)| ==> Stamps(m)[i].1 < bound
  {
    forall i | 0 <= i < |Stamps(m)| ensures Stamps(m)[i].1 < bound {
      StampsAreLive(m, Stamps(m)[i]);
    }
  }

  lemma WrittenKeepsGenerations<K, V>(s: State<K, V>, key: K, value: V, late: bool)
    requires DistinctGenerations(s.entries) && GenerationsBounded(s)
    ensures DistinctGenerations(Written(s, key, value, late).entries)
    ensures GenerationsBounded(Written(s, key, value, late))
  {
    var stamped := s.entries[key := Entry(value, s.nextGeneration)];
    StampedKeepsGenerations(s.entries, key, Entry(value, s.nextGeneration));
    assert forall k :: k in stamped ==> stamped[k].generation < s.nextGeneration + 1;
    StampsBounded(s.entries, s.nextGeneration + 1);
    StampsBounded(stamped, s.nextGeneration + 1);
    hide DistinctGenerations, Stamps;
  }

  lemma WrittenKeepsQueue<K, V>(s: State<K, V>, key: K, value: V, late: bool)
    requires DistinctGenerations(s.entries) && GenerationsBounded(s) && Ascending(s.order)
    requires |s.entries| < QueueLimit(s.maxEntries)
    ensures Ascending(Written(s, key, value, late).order)
    ensures |Written(s, key, value, late).order| <= QueueLimit(s.maxEntries)
  {
    var e := Entry(value, s.nextGeneration);
    StampedKeepsGenerations(s.entries, key, e);
    StampedSize(s.entries, key, e);
    StampsAscend(s.entries);
    StampsAscend(s.entries[key := e]);
    PushedAscends(s.order, key, s.nextGeneration);
    hide DistinctGenerations, Stamps, Ascending, GenerationsBounded;
  }

  lemma PushedAscends<K>(order: seq<(K, nat)>, key: K, generation: nat)
    requires Ascending(order) && forall i :: 0 <= i < |order| ==> order[i].1 < generation
    ensures Ascending(order + [(key, generation)])
  {}

  lemma StampedSize<K, V>(m: map<K, V>, key: K, e: V)
    ensures |m[key := e]| == if key in m then |m| else |m| + 1
  {
    assert m[key := e].Keys == m.Keys + {key};
  }

  // ----- eviction

  /** The key a plain recency list would drop if it could not see the hidden keys. */
  ghost function Victim<K>(recency: seq<K>, hidden: set<K>): Option<K> {
    if recency == [] then None
    else if recency[0] !in hidden then Some(recency[0])
    else Victim(recency[1..], hidden)
  }

  ghost function DropVictim<K, V>(m: map<K, V>, victim: Option<K>): map<K, V> {
    if victim.Some? then m - {victim.value} else m
  }

  lemma {:induction false} VictimIsOldestVisible<K, V>(m: map<K, Entry<V>>, hidden: set<K>, k: K)
    requires DistinctGenerations(m) && k in m && k !in hidden
    requires forall l :: l in m && m[l].generation < m[k].generation ==> l in hidden
    ensures Victim(ByAge(m), hidden) == Some(k)
    decreases |m|
  {
    var o := Oldest(m);
    if o != k {
      assert m[o].generation < m[k].generation;
      assert (m - {o}).Keys == m.Keys - {o};
      VictimIsOldestVisible(m - {o}, hidden, k);
      assert ByAge(m)[1..] == ByAge(m - {o});
    }
  }

  lemma {:induction false} NoVictim<K, V>(m: map<K, Entry<V>>, hidden: set<K>)
    ensures Victim(ByAge(m), hidden) == None <==> m.Keys <= hidden
    ensures Victim(ByAge(m), hidden).Some? ==> Victim(ByAge(m), hidden).value in m
    decreases |m|
  {
    if m != map[] {
      var o := Oldest(m);
      assert (m - {o}).Keys == m.Keys - {o};
      NoVictim(m - {o}, hidden);
      assert ByAge(m)[1..] == ByAge(m - {o});
      assert m.Keys <= hidden <==> o in hidden && (m - {o}).Keys <= hidden;
    }
  }

  /** What one pop does to the keys the queue shows. */
  lemma HiddenAfterPop<K, V>(s: State<K, V>, k: K)
    requires s.order != []
    ensures k in Hidden(s.(order := s.order[1..])) <==>
      k in Hidden(s) || (k == s.order[0].0 && Live(s.entries, s.order[0]) && s.order[0] !in s.order[1..])
  {
    if k in s.entries {
      InCons(s.order[0], s.order[1..], (k, s.entries[k].generation));
      assert [s.order[0]] + s.order[1..] == s.order;
    }
  }

  lemma HeadIsLeast<K>(order: seq<(K, nat)>, stamp: (K, nat))
    requires Ascending(order) && order != []
    ensures stamp in order ==> order[0].1 <= stamp.1
  {}

  lemma LiveHeadIsOldestVisible<K, V>(s: State<K, V>)
    requires DistinctGenerations(s.entries)
    requires Ascending(s.order) && s.order != [] && Live(s.entries, s.order[0])
    ensures Victim(ByAge(s.entries), Hidden(s)) == Some(s.order[0].0)
  {
    assert s.order[0] in s.order;
    forall l | l in s.entries && s.entries[l].generation < s.order[0].1 ensures l in Hidden(s) {
      HeadIsLeast(s.order, (l, s.entries[l].generation));
    }
    VictimIsOldestVisible(s.entries, Hidden(s), s.order[0].0);
  }

  lemma LiveHeadEvicted<K, V>(s: State<K, V>)
    requires Ascending(s.order) && s.order != [] && Live(s.entries, s.order[0])
    ensures Hidden(s.(order := s.order[1..], entries := s.entries - {s.order[0].0})) == Hidden(s)
  {
    var t := s.(order := s.order[1..], entries := s.entries - {s.order[0].0});
    assert s.order[0] in s.order;
    forall k ensures k in Hidden(t) <==> k in Hidden(s) {
      HiddenAfterPop(s, k);
    }
  }

  lemma StaleHeadPopped<K, V>(s: State<K, V>)
    requires s.order != [] && !Live(s.entries, s.order[0])
    ensures Hidden(s.(order := s.order[1..])) == Hidden(s)
  {
    forall k ensures k in Hidden(s.(order := s.order[1..])) <==> k in Hidden(s) { HiddenAfterPop(s, k); }
  }

  /** Eviction drops the least recently used key among those the queue still shows, and
      no other, and what it leaves in the queue still shows the same keys. */
  lemma {:induction false} EvictedDropsVictim<K, V>(s: State<K, V>)
    requires DistinctGenerations(s.entries) && Ascending(s.order)
    ensures Evicted(s).entries == DropVictim(s.entries, Victim(ByAge(s.entries), Hidden(s)))
    ensures Hidden(Evicted(s)) == Hidden(s)
    decreases |s.order|
  {
    assert s.order == [] ==> s.entries.Keys <= Hidden(s);
    hide Hidden, ByAge, Victim, DistinctGenerations;
    if s.order == [] {
      NoVictim(s.entries, Hidden(s));
    } else if Live(s.entries, s.order[0]) {
      LiveHeadIsOldestVisible(s);
      LiveHeadEvicted(s);
    } else {
      StaleHeadPopped(s);
      EvictedDropsVictim(s.(order := s.order[1..]));
    }
  }

  lemma {:induction false} EvictedKeepsQueue<K, V>(s: State<K, V>)
    requires DistinctGenerations(s.entries) && GenerationsBounded(s) && Ascending(s.order)
    ensures var e := Evicted(s);
      && DistinctGenerations(e.entries) && GenerationsBounded(e) && Ascending(e.order)
      && e.nextGeneration == s.nextGeneration && e.maxEntries == s.maxEntries && |e.order| <= |s.order|
    decreases |s.order|
  {
    if s.order != [] && !Live(s.entries, s.order[0]) {
      EvictedKeepsQueue(s.(order := s.order[1..]));
    }
  }

  // ----- every operation, and every run

  function SizeBound(maxEntries: nat): nat { if maxEntries >= 2 then maxEntries else 2 }

  lemma AtMostOneSize<K>(keys: set<K>, all: set<K>)
    requires AtMostOne(keys) && all <= keys
    ensures |all| <= 1
  {
    if all != {} {
      var k :| k in all;
      assert all == {k};
    }
  }

  lemma EvictIfFullMakesRoom<K, V>(s: State<K, V>, op: Op<K, V>)
    requires Inv(s)
    ensures var e := EvictIfFull(s, op);
      && Inv(e) && Hidden(e) == Hidden(s) && e.maxEntries == s.maxEntries
      && (op.Insert? && op.key !in s.entries ==> op.key !in e.entries && |e.entries| < SizeBound(s.maxEntries))
      && (op.Insert? && op.key !in s.entries && Hidden(s) == {} && |s.entries| <= s.maxEntries ==> |e.entries| < s.maxEntries)
  {
    if op.Insert? && op.key !in s.entries && |s.entries| >= s.maxEntries {
      EvictedKeepsQueue(s);
      EvictedDropsVictim(s);
      NoVictim(s.entries, Hidden(s));
      var victim := Victim(ByAge(s.entries), Hidden(s));
      if victim.Some? {
        RemovedSize(s.entries, victim.value);
      } else {
        AtMostOneSize(Hidden(s), s.entries.Keys);
      }
    }
  }

  lemma WriteKeepsInv<K, V>(s: State<K, V>, key: K, value: V)
    requires Inv(s)
    requires key in s.entries || |s.entries| < SizeBound(s.maxEntries)
    ensures Inv(Written(s, key, value, false))
  {
    WrittenKeepsGenerations(s, key, value, false);
    WrittenKeepsQueue(s, key, value, false);
    WrittenHides(s, key, value);
    StampedSize(s.entries, key, Entry(value, s.nextGeneration));
  }

  lemma RemoveKeepsInv<K, V>(s: State<K, V>, key: K)
    requires Inv(s) && key in s.entries
    ensures Inv(s.(entries := s.entries - {key}))
    ensures Hidden(s.(entries := s.entries - {key})) <= Hidden(s)
    ensures Step(s, Remove(key), false) == Step(s, Remove(key), true) == s.(entries := s.entries - {key})
  {
    RemovedSize(s.entries, key);
    assert Hidden(s.(entries := s.entries - {key})) <= Hidden(s);
  }

  /** Every operation keeps the queue ascending and bounded, the size within
      `max(maxEntries, 2)`, and at most one live key missing from the queue. */
  lemma StepKeepsInv<K, V>(s: State<K, V>, op: Op<K, V>)
    requires Inv(s)
    ensures Inv(Step(s, op, false)) && Step(s, op, false).maxEntries == s.maxEntries
  {
    EvictIfFullMakesRoom(s, op);
    match op
    case Insert(k, v) => WriteKeepsInv(EvictIfFull(s, op), k, v);
    case Refresh(k) => if k in s.entries { WriteKeepsInv(s, k, s.entries[k].value); }
    case Modify(k, v) => if k in s.entries { WriteKeepsInv(s, k, v); }
    case Remove(k) => if k in s.entries { RemoveKeepsInv(s, k); }
  }

  lemma LateWriteKeepsInv<K, V>(s: State<K, V>, key: K, value: V)
    requires LateInv(s)
    requires key in s.entries || |s.entries| < s.maxEntries
    ensures LateInv(Written(s, key, value, true))
  {
    WrittenKeepsGenerations(s, key, value, true);
    WrittenKeepsQueue(s, key, value, true);
    LateWriteHidesNothing(s, key, value);
    StampedSize(s.entries, key, Entry(value, s.nextGeneration));
  }

  /** Compacting after the generation is stored hides nothing and respects the capacity. */
  lemma LateStepKeepsInv<K, V>(s: State<K, V>, op: Op<K, V>)
    requires LateInv(s)
    ensures LateInv(Step(s, op, true)) && Step(s, op, true).maxEntries == s.maxEntries
  {
    EvictIfFullMakesRoom(s, op);
    match op
    case Insert(k, v) => LateWriteKeepsInv(EvictIfFull(s, op), k, v);
    case Refresh(k) => if k in s.entries { LateWriteKeepsInv(s, k, s.entries[k].value); }
    case Modify(k, v) => if k in s.entries { LateWriteKeepsInv(s, k, v); }
    case Remove(k) => if k in s.entries { RemoveKeepsInv(s, k); RemovedSize(s.entries, k); }
  }

  /** The state after a run of operations on a new cache. Every reachable state satisfies
      `Inv`, and `LateInv` when compaction comes last. */
  ghost function Run<K, V>(maxEntries: nat, ops: seq<Op<K, V>>, late: bool): (s: State<K, V>)
    ensures Inv(s) && (late ==> LateInv(s))
    ensures s.maxEntries == if maxEntries >= 1 then maxEntries else 1
  {
    if ops == [] then Empty(maxEntries)
    else
      var s := Run(maxEntries, ops[..|ops| - 1], late);
      var op := ops[|ops| - 1];
      if late then LateStepKeepsInv(s, op); Step(s, op, true)
      else StepKeepsInv(s, op); Step(s, op, false)
  }

  // ----- a plain least-recently-used list

  /** Keys least recently used first, and what they map to. */
  datatype Lru<K, +V> = Lru(recency: seq<K>, values: map<K, V>)

  ghost function LruTouch<K, V>(l: Lru<K, V>, key: K, value: V): Lru<K, V> {
    Lru(Without(l.recency, key) + [key], l.values[key := value])
  }

  ghost function LruDropOldest<K, V>(l: Lru<K, V>): Lru<K, V> {
    if l.recency == [] then l else Lru(l.recency[1..], l.values - {l.recency[0]})
  }

  ghost function LruStep<K, V>(l: Lru<K, V>, op: Op<K, V>, capacity: nat): Lru<K, V> {
    match op
    case Insert(k, v) => LruTouch(if k !in l.values && |l.recency| >= capacity then LruDropOldest(l) else l, k, v)
    case Refresh(k) => if k in l.values then LruTouch(l, k, l.values[k]) else l
    case Modify(k, v) => if k in l.values then LruTouch(l, k, v) else l
    case Remove(k) => if k in l.values then Lru(Without(l.recency, k), l.values - {k}) else l
  }

  ghost function LruRun<K, V>(ops: seq<Op<K, V>>, capacity: nat): Lru<K, V> {
    if ops == [] then Lru([], map[]) else LruStep(LruRun(ops[..|ops| - 1], capacity), ops[|ops| - 1], capacity)
  }

  ghost function Values<K, V>(m: map<K, Entry<V>>): map<K, V> {
    map k | k in m :: m[k].value
  }

  /** The list a state stands for. */
  ghost function Abs<K, V>(s: State<K, V>): Lru<K, V> {
    Lru(ByAge(s.entries), Values(s.entries))
  }

  lemma ValuesStamped<K, V>(m: map<K, Entry<V>>, k: K, e: Entry<V>)
    ensures Values(m[k := e]) == Values(m)[k := e.value]
    ensures m[k := e] == (m - {k})[k := e]
  {}

  lemma WrittenTouches<K, V>(s: State<K, V>, key: K, value: V, late: bool)
    requires DistinctGenerations(s.entries) && GenerationsBounded(s)
    ensures Abs(Written(s, key, value, late)) == LruTouch(Abs(s), key, value)
  {
    var e := Entry(value, s.nextGeneration);
    ValuesStamped(s.entries, key, e);
    ByAgeWithout(s.entries, key);
    ByAgeNewest(s.entries - {key}, key, e);
  }

  lemma ValuesWithout<K, V>(m: map<K, Entry<V>>, k: K)
    ensures Values(m - {k}) == Values(m) - {k}
  {}

  lemma DroppedLeavesList<K, V>(s: State<K, V>, t: State<K, V>, k: K)
    requires DistinctGenerations(s.entries) && t.entries == s.entries - {k}
    ensures Abs(t) == Lru(Without(Abs(s).recency, k), Abs(s).values - {k})
  {
    ByAgeWithout(s.entries, k);
    ValuesWithout(s.entries, k);
  }

  /** Room has to be made while the oldest key is live but missing from the queue. */
  ghost predicate EvictsWrongKey<K, V>(s: State<K, V>, op: Op<K, V>) {
    && op.Insert? && op.key !in s.entries
    && |s.entries| >= s.maxEntries
    && s.entries != map[] && Oldest(s.entries) in Hidden(s)
  }

  lemma EvictedIsDropOldest<K, V>(s: State<K, V>)
    requires Inv(s) && s.entries != map[] && Oldest(s.entries) !in Hidden(s)
    ensures Abs(Evicted(s)) == LruDropOldest(Abs(s))
  {
    var o := Oldest(s.entries);
    EvictedDropsVictim(s);
    assert ByAge(s.entries)[0] == o;
    DroppedLeavesList(s, Evicted(s), o);
    assert ByAge(s.entries)[1..] == ByAge(s.entries - {o});
  }

  lemma OldestSurvives<K, V>(s: State<K, V>)
    requires Inv(s) && s.entries != map[] && Oldest(s.entries) in Hidden(s)
    ensures Oldest(s.entries) in Evicted(s).entries
  {
    EvictedDropsVictim(s);
    var rest := s.entries - {Oldest(s.entries)};
    assert ByAge(s.entries)[1..] == ByAge(rest);
    NoVictim(rest, Hidden(s));
  }

  /** A full cache whose oldest key is hidden keeps a key that the list drops. */
  lemma HiddenIsNotLru<K, V>(s: State<K, V>, key: K, value: V)
    requires Inv(s) && s.entries != map[] && Oldest(s.entries) in Hidden(s) && key !in s.entries
    ensures LruTouch(Abs(Evicted(s)), key, value) != LruTouch(LruDropOldest(Abs(s)), key, value)
  {
    hide Inv, Evicted, Hidden, Without;
    var o := Oldest(s.entries);
    OldestSurvives(s);
    assert o in LruTouch(Abs(Evicted(s)), key, value).values;
    assert o !in LruTouch(LruDropOldest(Abs(s)), key, value).values;
  }

  lemma InsertIsLruIff<K, V>(s: State<K, V>, op: Op<K, V>, late: bool)
    requires Inv(s) && op.Insert?
    ensures Abs(Step(s, op, late)) == LruStep(Abs(s), op, s.maxEntries) <==> !EvictsWrongKey(s, op)
  {
    EvictIfFullMakesRoom(s, op);
    WrittenTouches(EvictIfFull(s, op), op.key, op.value, late);
    hide DistinctGenerations, GenerationsBounded, Ascending, AtMostOne, Written, Evicted, Hidden, LruTouch, LruDropOldest;
    if op.key !in s.entries && |s.entries| >= s.maxEntries {
      if Oldest(s.entries) in Hidden(s) {
        HiddenIsNotLru(s, op.key, op.value);
      } else {
        EvictedIsDropOldest(s);
      }
    }
  }

  /** One operation acts as on a plain list exactly when it does not have to make room
      while the oldest key is hidden. */
  lemma StepIsLruIff<K, V>(s: State<K, V>, op: Op<K, V>, late: bool)
    requires Inv(s)
    ensures Abs(Step(s, op, late)) == LruStep(Abs(s), op, s.maxEntries) <==> !EvictsWrongKey(s, op)
  {
    match op
    case Insert(k, v) => InsertIsLruIff(s, op, late);
    case Refresh(k) => if k in s.entries { WrittenTouches(s, k, s.entries[k].value, late); }
    case Modify(k, v) => if k in s.entries { WrittenTouches(s, k, v, late); }
    case Remove(k) => if k in s.entries { RemoveKeepsInv(s, k); DroppedLeavesList(s, Step(s, op, late), k); }
  }

  /** When room has to be made while the oldest key is hidden, the second oldest goes
      instead, and nothing goes when there is no second. */
  lemma WrongVictim<K, V>(s: State<K, V>, op: Op<K, V>)
    requires Inv(s) && EvictsWrongKey(s, op)
    ensures var q := ByAge(s.entries);
      Evicted(s).entries == if |q| >= 2 then s.entries - {q[1]} else s.entries
  {
    var q := ByAge(s.entries);
    EvictedDropsVictim(s);
    if |q| >= 2 {
      var rest := s.entries - {Oldest(s.entries)};
      assert q[1..] == ByAge(rest);
      assert q[1] == Oldest(rest);
      assert q[1] !in Hidden(s);
      assert Victim(q[1..], Hidden(s)) == Some(q[1]);
    } else {
      assert q[1..] == [];
    }
  }

  /** Compacting after the generation is stored makes every run a run of a plain list. */
  lemma {:induction false} LateRunIsLru<K, V>(maxEntries: nat, ops: seq<Op<K, V>>)
    ensures Abs(Run(maxEntries, ops, true)) == LruRun(ops, if maxEntries >= 1 then maxEntries else 1)
  {
    if ops == [] {
      assert Abs(Empty<K, V>(maxEntries)) == Lru([], map[]);
    } else {
      LateRunIsLru(maxEntries, ops[..|ops| - 1]);
      StepIsLruIff(Run(maxEntries, ops[..|ops| - 1], true), ops[|ops| - 1], true);
    }
  }

  ghost predicate MatchesLru<K, V>(maxEntries: nat, ops: seq<Op<K, V>>, n: nat)
    requires n <= |ops|
  {
    Abs(Run(maxEntries, ops[..n], false)) == LruRun(ops[..n], if maxEntries >= 1 then maxEntries else 1)
  }

  ghost predicate GoesWrong<K, V>(maxEntries: nat, ops: seq<Op<K, V>>, n: nat)
    requires n < |ops|
  {
    EvictsWrongKey(Run(maxEntries, ops[..n], false), ops[n])
  }

  lemma MatchesUntilWrong<K, V>(maxEntries: nat, ops: seq<Op<K, V>>, n: nat)
    requires n < |ops| && MatchesLru(maxEntries, ops, n)
    ensures MatchesLru(maxEntries, ops, n + 1) <==> !GoesWrong(maxEntries, ops, n)
  {
    assert ops[..n + 1][..n] == ops[..n];
    StepIsLruIff(Run(maxEntries, ops[..n], false), ops[n], false);
    hide EvictsWrongKey, Abs, LruStep, Inv;
  }

  /** A run agrees with a plain list all the way exactly when no operation makes room while
      the oldest key is hidden; at the first that does, it departs. */
  lemma RunIsLruIff<K, V>(maxEntries: nat, ops: seq<Op<K, V>>)
    ensures (forall n :: 0 <= n <= |ops| ==> MatchesLru(maxEntries, ops, n))
      <==> (forall n :: 0 <= n < |ops| ==> !GoesWrong(maxEntries, ops, n))
  {
    hide MatchesLru, GoesWrong;
    MatchesAtStart(maxEntries, ops);
    if forall n :: 0 <= n <= |ops| ==> MatchesLru(maxEntries, ops, n) {
      forall n | 0 <= n < |ops| ensures !GoesWrong(maxEntries, ops, n) {
        assert MatchesLru(maxEntries, ops, n + 1);
        MatchesUntilWrong(maxEntries, ops, n);
      }
    } else {
      var n :| 0 <= n <= |ops| && !MatchesLru(maxEntries, ops, n);
      FirstWrong(maxEntries, ops, n);
    }
  }

  lemma MatchesAtStart<K, V>(maxEntries: nat, ops: seq<Op<K, V>>)
    ensures MatchesLru(maxEntries, ops, 0)
  {
    assert Abs(Empty<K, V>(maxEntries)) == Lru([], map[]);
  }

  lemma {:induction false} FirstWrong<K, V>(maxEntries: nat, ops: seq<Op<K, V>>, n: nat)
    requires n <= |ops| && !MatchesLru(maxEntries, ops, n)
    ensures exists k :: 0 <= k < n && GoesWrong(maxEntries, ops, k)
  {
    hide MatchesLru, GoesWrong;
    MatchesAtStart(maxEntries, ops);
    if MatchesLru(maxEntries, ops, n - 1) {
      MatchesUntilWrong(maxEntries, ops, n - 1);
    } else {
      FirstWrong(maxEntries, ops, n - 1);
    }
  }

  /** So a run in which nothing goes wrong ends as the plain list does. */
  lemma RunIsLru<K, V>(maxEntries: nat, ops: seq<Op<K, V>>)
    requires forall n :: 0 <= n < |ops| ==> !GoesWrong(maxEntries, ops, n)
    ensures Abs(Run(maxEntries, ops, false)) == LruRun(ops, if maxEntries >= 1 then maxEntries else 1)
  {
    hide GoesWrong, Run, LruRun;
    RunIsLruIff(maxEntries, ops);
    assert MatchesLru(maxEntries, ops, |ops|);
    assert ops[..|ops|] == ops;
  }

  // ----- the size bound

  /** Refreshing one key `n` times fills the queue with its stamps. */
  ghost function Refreshes<V>(n: nat, value: V): seq<Op<nat, V>> {
    [Insert(0, value)] + seq(n, _ => Refresh(0))
  }

  /** One key, refreshed `n` times. */
  ghost predicate Filled<V>(s: State<nat, V>, n: nat, value: V) {
    && s.maxEntries == 1 && s.entries == map[0 := Entry(value, n + 1)] && s.nextGeneration == n + 2
    && |s.order| == n + 1 && forall i :: 0 <= i <= n ==> s.order[i] == (0, i + 1)
  }

  lemma RefreshFills<V>(s: State<nat, V>, n: nat, value: V)
    requires Filled(s, n, value) && n < 19
    ensures Filled(Step(s, Refresh(0), false), n + 1, value)
  {}

  lemma {:induction false} RefreshesFillQueue<V>(n: nat, value: V)
    requires n < 20
    ensures Filled(Run(1, Refreshes(n, value), false), n, value)
  {
    hide Inv;
    var ops := Refreshes(n, value);
    if n == 0 {
      assert ops[..0] == [];
    } else {
      hide Filled, Step;
      RefreshesFillQueue(n - 1, value);
      assert ops[..n] == Refreshes(n - 1, value);
      RefreshFills(Run(1, ops[..n], false), n - 1, value);
    }
  }

  /** The twentieth refresh rebuilds the queue before the key gets its new generation. */
  lemma RefreshOverflows<V>(s: State<nat, V>, value: V)
    requires Filled(s, 19, value)
    ensures var r := Step(s, Refresh(0), false);
      r.entries == map[0 := Entry(value, 21)] && r.order == [(0, 20)]
  {
    assert Oldest(s.entries) == 0;
    assert s.entries - {0} == map[];
    assert Stamps(s.entries) == [(0, 20)];
  }

  lemma LastRefreshHides<V>(value: V)
    ensures var s := Run(1, Refreshes(20, value), false);
      s.entries == map[0 := Entry(value, 21)] && s.order == [(0, 20)]
  {
    hide Inv, Step, Filled;
    var ops := Refreshes(20, value);
    RefreshesFillQueue(19, value);
    assert ops[..20] == Refreshes(19, value);
    RefreshOverflows(Run(1, ops[..20], false), value);
  }

  /** With capacity one the bound of one entry fails: after one insertion and twenty
      refreshes the only key is hidden, so the next insertion evicts nothing. */
  lemma CapacityOneHoldsTwo<V>(value: V)
    ensures |Run(1, Refreshes(20, value) + [Insert(1, value)], false).entries| == 2
  {
    var ops := Refreshes(20, value);
    LastRefreshHides(value);
    var all := ops + [Insert(1, value)];
    assert all[..|all| - 1] == ops;
    var s := Run(1, ops, false);
    assert Evicted(s).entries == s.entries;
    assert Run(1, all, false).entries.Keys == {0, 1};
  }

  ghost predicate Overfull<K, V>(maxEntries: nat, ops: seq<Op<K, V>>) {
    |Run(maxEntries, ops, false).entries| > Run(maxEntries, ops, false).maxEntries
  }

  lemma RunWithinCapacity<K, V>(maxEntries: nat, ops: seq<Op<K, V>>)
    requires maxEntries >= 2
    ensures !Overfull(maxEntries, ops)
  {
    hide Run;
  }

  lemma CapacityOneOverfull<V>(maxEntries: nat, value: V)
    requires maxEntries < 2
    ensures Overfull(maxEntries, Refreshes(20, value) + [Insert(1, value)])
  {
    hide Run, Refreshes, Inv;
    CapacityOneHoldsTwo(value);
    if maxEntries == 0 { CapacityZeroIsOne(Refreshes(20, value) + [Insert(1, value)]); }
  }

  /** Every run stays within the capacity exactly when the capacity is at least two. */
  lemma CapacityKeptIff<V(!new)>(maxEntries: nat, value: V)
    ensures (forall ops: seq<Op<nat, V>> :: !Overfull(maxEntries, ops)) <==> maxEntries >= 2
  {
    hide Overfull, Refreshes;
    if maxEntries >= 2 {
      forall ops: seq<Op<nat, V>> ensures !Overfull(maxEntries, ops) { RunWithinCapacity(maxEntries, ops); }
    } else {
      CapacityOneOverfull(maxEntries, value);
    }
  }

  lemma {:induction false} CapacityZeroIsOne<K, V>(ops: seq<Op<K, V>>)
    ensures Run(0, ops, false) == Run(1, ops, false)
  {
    if ops != [] { CapacityZeroIsOne(ops[..|ops| - 1]); }
  }
}
