/**
 The least-recently-used cache of flashlight/fl/distributed/LRUCache.h, proved against what it
 should remember given only the history of its calls: a key is there if and only if it was put
 and fewer than `csize` distinct other keys were put or hit since it was last put or hit.
 */
module Lru {
  import opened Options
  import opened Sequences

  // ---------------------------------------------------------------- the history

  datatype Event<K, V> = Put(key: K, value: V) | Get(key: K)

  ghost predicate WasPut<K, V>(h: seq<Event<K, V>>, k: K) {
    h != [] && ((h[|h| - 1].Put? && h[|h| - 1].key == k) || WasPut(h[..|h| - 1], k))
  }

  /** The last value put under a key. */
  ghost function LastValue<K, V>(h: seq<Event<K, V>>, k: K): V
    requires WasPut(h, k)
  {
    var last := h[|h| - 1];
    if last.Put? && last.key == k then last.value else LastValue(h[..|h| - 1], k)
  }

  /** The last event is a put or a hit. */
  ghost predicate Touches<K, V>(h: seq<Event<K, V>>, cap: nat)
    requires h != []
    decreases |h|, 0
  {
    h[|h| - 1].Put? || Resident(h[..|h| - 1], h[|h| - 1].key, cap)
  }

  /** The other keys put or hit since k was. */
  ghost function Since<K, V>(h: seq<Event<K, V>>, k: K, cap: nat): set<K>
    decreases |h|, 1
  {
    if h == [] then {}
    else if !Touches(h, cap) then Since(h[..|h| - 1], k, cap)
    else if h[|h| - 1].key == k then {}
    else Since(h[..|h| - 1], k, cap) + {h[|h| - 1].key}
  }

  ghost predicate Resident<K, V>(h: seq<Event<K, V>>, k: K, cap: nat)
    decreases |h|, 2
  {
    WasPut(h, k) && |Since(h, k, cap)| < cap
  }

  /** What one more event does to the set of keys touched since k. */
  lemma {:induction false} SinceNext<K, V>(h: seq<Event<K, V>>, e: Event<K, V>, k: K, cap: nat)
    ensures Since(h + [e], k, cap) ==
      if e.Get? && !Resident(h, e.key, cap) then Since(h, k, cap)
      else if e.key == k then {}
      else Since(h, k, cap) + {e.key}
    ensures WasPut(h + [e], k) <==> WasPut(h, k) || (e.Put? && e.key == k)
    ensures WasPut(h + [e], k) ==>
      LastValue(h + [e], k) == if e.Put? && e.key == k then e.value else LastValue(h, k)
  {
  }

  lemma {:induction false} SinceFew<K, V>(h: seq<Event<K, V>>, k: K, v: V, later: seq<Event<K, V>>, cap: nat)
    ensures var all := h + [Put(k, v)] + later; WasPut(all, k) && |Since(all, k, cap)| <= |later|
    decreases |later|
  {
    if later == [] {
      SinceNext(h, Put(k, v), k, cap);
      assert h + [Put(k, v)] + later == h + [Put(k, v)];
    } else {
      var n := |later| - 1;
      SinceFew(h, k, v, later[..n], cap);
      SinceNext(h + [Put(k, v)] + later[..n], later[n], k, cap);
      assert h + [Put(k, v)] + later == h + [Put(k, v)] + later[..n] + [later[n]];
    }
  }

  /** A key that was put is found as long as fewer than `cap` calls followed, whatever they are. */
  lemma {:induction false} FoundAWhile<K, V>(h: seq<Event<K, V>>, k: K, v: V, later: seq<Event<K, V>>, cap: nat)
    requires |later| < cap
    ensures Resident(h + [Put(k, v)] + later, k, cap)
  {
    SinceFew(h, k, v, later, cap);
  }

  ghost predicate OtherPuts<K, V>(later: seq<Event<K, V>>, k: K) {
    && (forall i | 0 <= i < |later| :: later[i].Put? && later[i].key != k)
    && (forall i, j | 0 <= i < j < |later| :: later[i].key != later[j].key)
  }

  lemma {:induction false} SinceMany<K, V>(h: seq<Event<K, V>>, k: K, later: seq<Event<K, V>>, cap: nat)
    requires OtherPuts(later, k)
    ensures forall i | 0 <= i < |later| :: later[i].key in Since(h + later, k, cap)
    decreases |later|
  {
    if later != [] {
      var n := |later| - 1;
      SinceMany(h, k, later[..n], cap);
      SinceNext(h + later[..n], later[n], k, cap);
      assert h + later == h + later[..n] + [later[n]];
    }
  }

  /** Once `cap` distinct other keys have been put it is gone. */
  lemma {:induction false} GoneAfter<K, V>(h: seq<Event<K, V>>, k: K, later: seq<Event<K, V>>, cap: nat)
    requires OtherPuts(later, k) && |later| >= cap
    ensures !Resident(h + later, k, cap)
  {
    var keys := seq(|later|, i requires 0 <= i < |later| => later[i].key);
    SinceMany(h, k, later, cap);
    DistinctSize(keys);
    Larger(Elements(keys), Since(h + later, k, cap));
  }

  // ---------------------------------------------------------------- the list

  /** Every listed key was put, and the keys before it are those touched since it was. */
  ghost predicate Recent<K, V>(dq: seq<K>, h: seq<Event<K, V>>, cap: nat) {
    && Distinct(dq)
    && forall p | 0 <= p < |dq| :: WasPut(h, dq[p]) && Since(h, dq[p], cap) == Elements(dq[..p])
  }

  /** A key that was put and is not listed has been passed by `cap` others. */
  ghost predicate Forgotten<K(!new), V>(dq: seq<K>, h: seq<Event<K, V>>, cap: nat) {
    forall k: K :: ListedOrPassed(dq, h, cap, k)
  }

  ghost predicate ListedOrPassed<K, V>(dq: seq<K>, h: seq<Event<K, V>>, cap: nat, k: K) {
    WasPut(h, k) && k !in dq ==> |Since(h, k, cap)| >= cap
  }

  ghost predicate Tracks<K(!new), V>(dq: seq<K>, h: seq<Event<K, V>>, cap: nat) {
    Recent(dq, h, cap) && Forgotten(dq, h, cap) && |dq| <= cap
  }

  /** Being listed is being resident. */
  lemma {:induction false} ListedIsResident<K(!new), V>(dq: seq<K>, h: seq<Event<K, V>>, cap: nat, k: K)
    requires Tracks(dq, h, cap)
    ensures k in dq <==> Resident(h, k, cap)
  {
    if k in dq {
      var p :| 0 <= p < |dq| && dq[p] == k;
      DistinctSize(dq[..p]);
    } else {
      assert ListedOrPassed(dq, h, cap, k);
    }
  }

  lemma {:induction false} Larger<K>(a: set<K>, b: set<K>)
    requires a <= b
    ensures |a| <= |b|
  {
    assert b == a + (b - a);
  }

  /** The key moved to the front, wherever it was. */
  ghost function Front<K>(dq: seq<K>, k: K, q: nat): seq<K>
    requires q <= |dq|
  {
    [k] + dq[..q] + (if q < |dq| then dq[q + 1..] else [])
  }

  lemma {:induction false} FrontKeys<K>(dq: seq<K>, k: K, q: nat, p: nat)
    requires q <= |dq| && (q < |dq| ==> dq[q] == k) && p < |Front(dq, k, q)|
    requires p > 0
    ensures var old_ := if p <= q then p - 1 else p;
      && old_ < |dq| && Front(dq, k, q)[p] == dq[old_] && Elements(Front(dq, k, q)[..p]) == Elements(dq[..old_]) + {k}
  {
    var f, old_ := Front(dq, k, q), if p <= q then p - 1 else p;
    if p <= q {
      assert f[..p] == [k] + dq[..p - 1];
    } else {
      assert f[..p] == [k] + dq[..q] + dq[q + 1..p];
      assert dq[..p] == dq[..q] + [k] + dq[q + 1..p];
    }
  }

  /** Where a key is in the list, or the end of the list. */
  ghost predicate PlaceOf<K>(dq: seq<K>, k: K, q: nat) {
    q <= |dq| && (if q < |dq| then dq[q] == k else k !in dq)
  }

  ghost predicate Touch<K, V>(h: seq<Event<K, V>>, e: Event<K, V>, cap: nat) {
    e.Put? || Resident(h, e.key, cap)
  }

  lemma {:induction false} FrontDistinct<K>(dq: seq<K>, k: K, q: nat)
    requires Distinct(dq) && PlaceOf(dq, k, q)
    ensures Distinct(Front(dq, k, q))
  {
  }

  lemma {:induction false} RecentFront<K, V>(dq: seq<K>, h: seq<Event<K, V>>, cap: nat, e: Event<K, V>, q: nat)
    requires Recent(dq, h, cap) && PlaceOf(dq, e.key, q) && Touch(h, e, cap)
    requires e.Get? ==> WasPut(h, e.key)
    ensures Recent(Front(dq, e.key, q), h + [e], cap)
  {
    var f := Front(dq, e.key, q);
    FrontDistinct(dq, e.key, q);
    forall p | 0 <= p < |f| ensures WasPut(h + [e], f[p]) && Since(h + [e], f[p], cap) == Elements(f[..p]) {
      SinceNext(h, e, f[p], cap);
      if p > 0 {
        FrontKeys(dq, e.key, q, p);
        assert f[0] == e.key && f[p] != f[0];
      }
    }
  }

  /** Keys that are not listed and not touched stay forgotten. */
  lemma {:induction false} StaysForgotten<K(!new), V>(dq: seq<K>, h: seq<Event<K, V>>, cap: nat, e: Event<K, V>, k: K)
    requires Forgotten(dq, h, cap) && k !in dq && k != e.key && WasPut(h + [e], k)
    ensures |Since(h + [e], k, cap)| >= cap
  {
    assert ListedOrPassed(dq, h, cap, k);
    SinceNext(h, e, k, cap);
    Larger(Since(h, k, cap), Since(h + [e], k, cap));
  }

  /** Touching a listed key, or a new one while there is room. */
  lemma {:induction false} TouchKeeps<K(!new), V>(dq: seq<K>, h: seq<Event<K, V>>, cap: nat, e: Event<K, V>, q: nat)
    requires Tracks(dq, h, cap) && PlaceOf(dq, e.key, q) && Touch(h, e, cap)
    requires q < |dq| || |dq| < cap
    ensures Tracks(Front(dq, e.key, q), h + [e], cap)
  {
    var f := Front(dq, e.key, q);
    RecentFront(dq, h, cap, e, q);
    forall k: K ensures ListedOrPassed(f, h + [e], cap, k) {
      FrontHolds(dq, e.key, q, k);
      if WasPut(h + [e], k) && k !in f {
        StaysForgotten(dq, h, cap, e, k);
      }
    }
  }

  lemma {:induction false} FrontHolds<K>(dq: seq<K>, k: K, q: nat, x: K)
    requires PlaceOf(dq, k, q)
    ensures x in Front(dq, k, q) <==> x == k || x in dq
  {
  }

  lemma {:induction false} RecentPrefix<K, V>(dq: seq<K>, h: seq<Event<K, V>>, cap: nat, n: nat)
    requires Recent(dq, h, cap) && n <= |dq|
    ensures Recent(dq[..n], h, cap)
  {
    assert forall p | 0 <= p < n :: dq[..n][..p] == dq[..p];
  }

  /** The last key of a full list is passed by `cap` others once a new key is touched. */
  lemma {:induction false} EvictedIsPassed<K, V>(dq: seq<K>, h: seq<Event<K, V>>, cap: nat, e: Event<K, V>)
    requires Recent(dq, h, cap) && e.key !in dq && Touch(h, e, cap) && |dq| == cap > 0
    ensures |Since(h + [e], dq[cap - 1], cap)| >= cap
  {
    var kept := dq[..cap - 1];
    SinceNext(h, e, dq[cap - 1], cap);
    DistinctSize(kept);
    assert |Elements(kept) + {e.key}| == cap;
  }

  lemma {:induction false} EvictForgets<K(!new), V>(dq: seq<K>, h: seq<Event<K, V>>, cap: nat, e: Event<K, V>, k: K)
    requires Tracks(dq, h, cap) && e.key !in dq && Touch(h, e, cap) && |dq| == cap > 0
    requires k != e.key && k !in dq[..cap - 1] && WasPut(h + [e], k)
    ensures |Since(h + [e], k, cap)| >= cap
  {
    if k in dq {
      assert dq == dq[..cap - 1] + [dq[cap - 1]];
      EvictedIsPassed(dq, h, cap, e);
    } else {
      StaysForgotten(dq, h, cap, e, k);
    }
  }

  /** Touching a new key when the list is full. */
  lemma {:induction false} EvictKeeps<K(!new), V>(dq: seq<K>, h: seq<Event<K, V>>, cap: nat, e: Event<K, V>)
    requires Tracks(dq, h, cap) && e.key !in dq && Touch(h, e, cap) && |dq| == cap > 0
    requires e.Get? ==> WasPut(h, e.key)
    ensures Tracks(Front(dq[..cap - 1], e.key, cap - 1), h + [e], cap)
  {
    var kept := dq[..cap - 1];
    RecentPrefix(dq, h, cap, cap - 1);
    assert PlaceOf(kept, e.key, cap - 1);
    RecentFront(kept, h, cap, e, cap - 1);
    var f, g := Front(kept, e.key, cap - 1), h + [e];
    forall k: K ensures ListedOrPassed(f, g, cap, k) {
      FrontHolds(kept, e.key, cap - 1, k);
      if k != e.key && k !in kept && WasPut(h + [e], k) {
        EvictForgets(dq, h, cap, e, k);
      }
    }
  }

  /** A miss changes nothing. */
  lemma {:induction false} MissKeeps<K(!new), V>(dq: seq<K>, h: seq<Event<K, V>>, cap: nat, k: K)
    requires Tracks(dq, h, cap) && !Resident(h, k, cap)
    ensures Tracks(dq, h + [Get(k)], cap)
  {
    forall x: K ensures Since(h + [Get(k)], x, cap) == Since(h, x, cap) && (WasPut(h + [Get(k)], x) <==> WasPut(h, x)) {
      SinceNext(h, Get(k), x, cap);
    }
    forall x: K ensures ListedOrPassed(dq, h + [Get(k)], cap, x) {
      assert ListedOrPassed(dq, h, cap, x);
    }
  }

  // ---------------------------------------------------------------- the map

  /** The map holds the last value put under each of its keys. */
  ghost predicate Values<K, V>(entries: map<K, V>, h: seq<Event<K, V>>) {
    forall k | k in entries :: WasPut(h, k) && entries[k] == LastValue(h, k)
  }

  lemma {:induction false} ValuesPut<K, V>(entries: map<K, V>, h: seq<Event<K, V>>, k: K, v: V)
    requires Values(entries, h)
    ensures Values(entries[k := v], h + [Event.Put(k, v)])
  {
  }

  lemma {:induction false} ValuesGet<K, V>(entries: map<K, V>, h: seq<Event<K, V>>, k: K)
    requires Values(entries, h)
    ensures Values(entries, h + [Event.Get(k)])
  {
  }

  lemma {:induction false} FrontKeySet<K>(dq: seq<K>, k: K, q: nat)
    requires PlaceOf(dq, k, q)
    ensures Elements(Front(dq, k, q)) == Elements(dq) + {k}
  {
  }

  lemma {:induction false} AllButLast<K>(dq: seq<K>)
    requires Distinct(dq) && dq != []
    ensures Elements(dq[..|dq| - 1]) == Elements(dq) - {dq[|dq| - 1]}
  {
  }

  // ---------------------------------------------------------------- the cache

  class LRUCache<K(==, !new), V(!new)> {
    var dq: seq<K>
    var entries: map<K, V>
    const csize: nat
    ghost var history: seq<Event<K, V>>

    /** List and map hold the same distinct keys, those of the history's recent past, with their last values. */
    ghost predicate Valid()
      reads this
    {
      && csize > 0
      && Tracks(dq, history, csize)
      && entries.Keys == Elements(dq)
      && Values(entries, history)
    }

    constructor (n: nat)
      requires n > 0
      ensures Valid() && csize == n && history == []
    {
      dq, entries, csize, history := [], map[], n, [];
    }

    /** Where the entry's iterator points. */
    method Find(k: K) returns (q: nat)
      requires k in dq
      ensures q < |dq| && dq[q] == k && PlaceOf(dq, k, q)
    {
      q := 0;
      while dq[q] != k
        invariant q < |dq| && k !in dq[..q]
        decreases |dq| - q
      {
        q := q + 1;
      }
    }

    /** A key that is not listed yet goes to the front; when the list is full the last key goes. */
    method Insert(k: K, ghost v: V)
      requires Valid() && k !in entries
      modifies this`dq, this`entries
      ensures Tracks(dq, history + [Event.Put(k, v)], csize)
      ensures entries.Keys + {k} == Elements(dq) && Values(entries, history)
    {
      ghost var e: Event<K, V> := Event.Put(k, v);
      if |dq| == csize {
        EvictKeeps(dq, history, csize, e);
        AllButLast(dq);
        entries := entries - {dq[|dq| - 1]};
        dq := dq[..|dq| - 1];
      } else {
        TouchKeeps(dq, history, csize, e, |dq|);
      }
      FrontKeySet(dq, k, |dq|);
      assert [k] + dq == Front(dq, k, |dq|);
      dq := [k] + dq;
    }

    /** A listed key goes to the front. */
    method MoveToFront(k: K, ghost e: Event<K, V>)
      requires Valid() && k in entries && e.key == k
      modifies this`dq
      ensures Tracks(dq, history + [e], csize)
      ensures Elements(dq) == Elements(old(dq))
    {
      ListedIsResident(dq, history, csize, k);
      var q := Find(k);
      TouchKeeps(dq, history, csize, e, q);
      FrontKeySet(dq, k, q);
      dq := [k] + dq[..q] + dq[q + 1..];
    }

    method Put(k: K, v: V) returns (stored: V)
      requires Valid()
      modifies this
      ensures Valid() && history == old(history) + [Event.Put(k, v)] && stored == v
    {
      if k !in entries {
        Insert(k, v);
      } else {
        MoveToFront(k, Event.Put(k, v));
      }
      ValuesPut(entries, history, k, v);
      entries := entries[k := v];
      history := history + [Event.Put(k, v)];
      stored := v;
    }

    method Get(k: K) returns (r: Option<V>)
      requires Valid()
      modifies this`dq, this`history
      ensures Valid() && history == old(history) + [Event.Get(k)]
      ensures r.Some? <==> Resident(old(history), k, csize)
      ensures r.Some? ==> r.value == LastValue(old(history), k)
    {
      ListedIsResident(dq, history, csize, k);
      ValuesGet(entries, history, k);
      if k !in entries {
        r := None;
        MissKeeps(dq, history, csize, k);
      } else {
        MoveToFront(k, Event.Get(k));
        r := Some(entries[k]);
      }
      history := history + [Event.Get(k)];
    }
  }
}
