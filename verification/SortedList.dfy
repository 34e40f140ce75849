/**
 The sorted lists of src/slist.c as sequences: what updateNode, fetchNode and
 cleanUpNodes compute, and that they compute it as a finite map.
 */
module SortedList {
  import opened Wrappers

  datatype Entry<K, V> = Entry(key: K, val: V)

  /**
   The compare callback, applied to a node's key and a cookie's key: positive
   when the cookie belongs after the node, zero when they are the same key.
   */
  ghost predicate IsOrder<K(!new)>(cmp: (K, K) -> int) {
    && (forall a, b :: cmp(a, b) == 0 <==> a == b)
    && (forall a, b :: cmp(a, b) > 0 <==> cmp(b, a) < 0)
    && (forall a, b, c :: cmp(a, b) > 0 && cmp(b, c) > 0 ==> cmp(a, c) > 0)
  }

  lemma OrderFacts<K(!new)>(cmp: (K, K) -> int, a: K, b: K)
    requires IsOrder(cmp)
    ensures cmp(a, b) == 0 <==> a == b
    ensures cmp(a, b) > 0 <==> cmp(b, a) < 0
  {
  }

  lemma OrderTrans<K(!new)>(cmp: (K, K) -> int, a: K, b: K, c: K)
    requires IsOrder(cmp) && cmp(a, b) > 0 && cmp(b, c) > 0
    ensures cmp(a, c) > 0
  {
  }

  /** Strictly ordered, hence one node per key. */
  ghost predicate Sorted<K, V>(s: seq<Entry<K, V>>, cmp: (K, K) -> int) {
    forall i, j :: 0 <= i < j < |s| ==> cmp(s[i].key, s[j].key) > 0
  }

  /** updateNode: walk while the cookie is larger, overwrite an equal node, else insert. */
  function Put<K, V>(s: seq<Entry<K, V>>, cmp: (K, K) -> int, k: K, v: V): (r: seq<Entry<K, V>>)
    ensures |s| <= |r| <= |s| + 1
  {
    if s == [] then [Entry(k, v)]
    else
      var c := cmp(s[0].key, k);
      if c < 0 then [Entry(k, v)] + s
      else if c == 0 then [Entry(k, v)] + s[1..]
      else [s[0]] + Put(s[1..], cmp, k, v)
  }

  /** fetchNode: walk while the cookie is larger; stop early at a node beyond it. */
  function Find<K, V>(s: seq<Entry<K, V>>, cmp: (K, K) -> int, k: K): Option<V> {
    if s == [] then None
    else
      var c := cmp(s[0].key, k);
      if c == 0 then Some(s[0].val)
      else if c < 0 then None
      else Find(s[1..], cmp, k)
  }

  function Remove<K, V>(s: seq<Entry<K, V>>, i: nat): (r: seq<Entry<K, V>>)
    requires i < |s|
    ensures |r| == |s| - 1
  {
    s[..i] + s[i + 1..]
  }

  /** The finite map a list stands for. */
  ghost function ToMap<K, V>(s: seq<Entry<K, V>>): map<K, V> {
    if s == [] then map[] else ToMap(s[1..])[s[0].key := s[0].val]
  }

  lemma {:induction false} MapKeys<K(!new), V>(s: seq<Entry<K, V>>)
    ensures forall k :: k in ToMap(s) <==> exists i :: 0 <= i < |s| && s[i].key == k
  {
    if s != [] {
      MapKeys(s[1..]);
      forall k
        ensures k in ToMap(s) <==> exists i :: 0 <= i < |s| && s[i].key == k
      {
        if k in ToMap(s[1..]) {
          var i :| 0 <= i < |s| - 1 && s[1..][i].key == k;
          assert s[i + 1].key == k;
        } else if i :| 0 <= i < |s| && s[i].key == k {
          assert i > 0 ==> s[1..][i - 1].key == k;
        }
      }
    }
  }

  lemma {:induction false} MapAt<K(!new), V>(s: seq<Entry<K, V>>, cmp: (K, K) -> int, i: nat)
    requires IsOrder(cmp) && Sorted(s, cmp) && i < |s|
    ensures s[i].key in ToMap(s) && ToMap(s)[s[i].key] == s[i].val
  {
    hide IsOrder;
    if i > 0 {
      assert s[1..][i - 1] == s[i];
      MapAt(s[1..], cmp, i - 1);
      OrderFacts(cmp, s[0].key, s[i].key);
    }
  }

  /** A sorted list has as many nodes as its map has keys. */
  lemma {:induction false} MapSize<K(!new), V>(s: seq<Entry<K, V>>, cmp: (K, K) -> int)
    requires IsOrder(cmp) && Sorted(s, cmp)
    ensures |ToMap(s)| == |s|
  {
    hide IsOrder;
    if s != [] {
      MapSize(s[1..], cmp);
      HeadNotInTail(s, cmp);
    }
  }

  /** Where the walk stops decides what updateNode does: insert before position i. */
  lemma {:induction false} PutInserts<K, V>(s: seq<Entry<K, V>>, cmp: (K, K) -> int, k: K, v: V, i: nat)
    requires i <= |s| && (forall j :: 0 <= j < i ==> cmp(s[j].key, k) > 0)
    requires i < |s| ==> cmp(s[i].key, k) < 0
    ensures Put(s, cmp, k, v) == s[..i] + [Entry(k, v)] + s[i..]
    ensures Find(s, cmp, k) == None
  {
    if i > 0 {
      PutInserts(s[1..], cmp, k, v, i - 1);
    }
  }

  /** ... or overwrite the node at position i. */
  lemma {:induction false} PutOverwrites<K, V>(s: seq<Entry<K, V>>, cmp: (K, K) -> int, k: K, v: V, i: nat)
    requires i < |s| && (forall j :: 0 <= j < i ==> cmp(s[j].key, k) > 0)
    requires cmp(s[i].key, k) == 0
    ensures Put(s, cmp, k, v) == s[i := Entry(k, v)]
    ensures Find(s, cmp, k) == Some(s[i].val)
  {
    if i > 0 {
      PutOverwrites(s[1..], cmp, k, v, i - 1);
    }
  }

  /** The position where the walk for k stops. */
  lemma {:induction false} WalkStops<K, V>(s: seq<Entry<K, V>>, cmp: (K, K) -> int, k: K) returns (i: nat)
    ensures i <= |s| && (forall j :: 0 <= j < i ==> cmp(s[j].key, k) > 0)
    ensures i < |s| ==> cmp(s[i].key, k) <= 0
  {
    i := 0;
    while i < |s| && cmp(s[i].key, k) > 0
      invariant i <= |s| && (forall j :: 0 <= j < i ==> cmp(s[j].key, k) > 0)
    {
      i := i + 1;
    }
  }

  /** updateNode on a sorted list: sorted again, and the map with k set to v. */
  lemma PutIsUpdate<K(!new), V>(s: seq<Entry<K, V>>, cmp: (K, K) -> int, k: K, v: V)
    requires IsOrder(cmp) && Sorted(s, cmp)
    ensures Sorted(Put(s, cmp, k, v), cmp)
    ensures ToMap(Put(s, cmp, k, v)) == ToMap(s)[k := v]
    ensures |Put(s, cmp, k, v)| == if k in ToMap(s) then |s| else |s| + 1
  {
    hide IsOrder, ToMap;
    PutSorted(s, cmp, k, v);
    PutMap(s, cmp, k, v);
    MapSize(s, cmp);
    MapSize(Put(s, cmp, k, v), cmp);
  }

  lemma PutSorted<K(!new), V>(s: seq<Entry<K, V>>, cmp: (K, K) -> int, k: K, v: V)
    requires IsOrder(cmp) && Sorted(s, cmp)
    ensures Sorted(Put(s, cmp, k, v), cmp)
  {
    hide IsOrder, Put;
    var i := WalkStops(s, cmp, k);
    if i < |s| && cmp(s[i].key, k) == 0 {
      PutOverwrites(s, cmp, k, v, i);
      OrderFacts(cmp, s[i].key, k);
    } else {
      PutInserts(s, cmp, k, v, i);
      forall j | i <= j < |s|
        ensures cmp(k, s[j].key) > 0
      {
        OrderFacts(cmp, k, s[i].key);
        if i < j {
          OrderTrans(cmp, k, s[i].key, s[j].key);
        }
      }
    }
  }

  lemma {:induction false} PutMap<K(!new), V>(s: seq<Entry<K, V>>, cmp: (K, K) -> int, k: K, v: V)
    requires IsOrder(cmp)
    ensures ToMap(Put(s, cmp, k, v)) == ToMap(s)[k := v]
  {
    hide IsOrder;
    if s != [] {
      var c := cmp(s[0].key, k);
      OrderFacts(cmp, s[0].key, k);
      if c < 0 {
        assert ([Entry(k, v)] + s)[1..] == s;
      } else if c == 0 {
        assert ([Entry(k, v)] + s[1..])[1..] == s[1..];
      } else {
        PutMap(s[1..], cmp, k, v);
        assert ([s[0]] + Put(s[1..], cmp, k, v))[1..] == Put(s[1..], cmp, k, v);
      }
    }
  }

  /** fetchNode on a sorted list is map lookup: the early exit never misses a key. */
  lemma {:induction false} FindIsLookup<K(!new), V>(s: seq<Entry<K, V>>, cmp: (K, K) -> int, k: K)
    requires IsOrder(cmp) && Sorted(s, cmp)
    ensures Find(s, cmp, k) == if k in ToMap(s) then Some(ToMap(s)[k]) else None
  {
    hide IsOrder;
    if s != [] {
      FindIsLookup(s[1..], cmp, k);
      OrderFacts(cmp, s[0].key, k);
      OrderFacts(cmp, k, s[0].key);
      if cmp(s[0].key, k) < 0 {
        MapKeys(s);
        forall i | 0 <= i < |s|
          ensures s[i].key != k
        {
          if i > 0 {
            OrderTrans(cmp, k, s[0].key, s[i].key);
            OrderFacts(cmp, k, s[i].key);
          }
        }
      }
    }
  }

  /** Unlinking a node of a sorted list: sorted again, and the map without its key. */
  lemma RemoveIsDelete<K(!new), V>(s: seq<Entry<K, V>>, cmp: (K, K) -> int, i: nat)
    requires IsOrder(cmp) && Sorted(s, cmp) && i < |s|
    ensures Sorted(Remove(s, i), cmp)
    ensures ToMap(Remove(s, i)) == ToMap(s) - {s[i].key}
  {
    hide IsOrder;
    RemoveMap(s, cmp, i);
  }

  lemma {:induction false} RemoveMap<K(!new), V>(s: seq<Entry<K, V>>, cmp: (K, K) -> int, i: nat)
    requires IsOrder(cmp) && Sorted(s, cmp) && i < |s|
    ensures ToMap(Remove(s, i)) == ToMap(s) - {s[i].key}
  {
    hide IsOrder;
    if i == 0 {
      assert Remove(s, 0) == s[1..];
      HeadNotInTail(s, cmp);
    } else {
      RemoveMap(s[1..], cmp, i - 1);
      assert Remove(s, i)[1..] == Remove(s[1..], i - 1);
      OrderFacts(cmp, s[0].key, s[i].key);
    }
  }

  lemma HeadNotInTail<K(!new), V>(s: seq<Entry<K, V>>, cmp: (K, K) -> int)
    requires IsOrder(cmp) && Sorted(s, cmp) && s != []
    ensures s[0].key !in ToMap(s[1..])
  {
    hide IsOrder;
    MapKeys(s[1..]);
    forall i | 0 <= i < |s| - 1
      ensures s[1..][i].key != s[0].key
    {
      OrderFacts(cmp, s[0].key, s[i + 1].key);
    }
  }
}
