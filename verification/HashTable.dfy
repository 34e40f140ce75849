/** A hash table of sorted lists, as the finite map it stands for. */
module HashTable {
  import opened Wrappers
  import opened SortedList
  import opened ListManager

  ghost function Contents<K, V>(view: seq<seq<Entry<K, V>>>): map<K, V> {
    if view == [] then map[] else Contents(view[..|view| - 1]) + ToMap(view[|view| - 1])
  }

  /** Every key is on the list its hash names. */
  ghost predicate Hashed<K(!new), V>(view: seq<seq<Entry<K, V>>>, hash: K -> nat) {
    forall l, k :: 0 <= l < |view| && k in ToMap(view[l]) ==> hash(k) == l
  }

  /** Looking a key up on its own list is looking it up in the table. */
  lemma {:induction false} ContentsAt<K(!new), V>(view: seq<seq<Entry<K, V>>>, hash: K -> nat, k: K)
    requires Hashed(view, hash)
    ensures k in Contents(view) <==> hash(k) < |view| && k in ToMap(view[hash(k)])
    ensures k in Contents(view) ==> Contents(view)[k] == ToMap(view[hash(k)])[k]
  {
    hide ToMap;
    if view != [] {
      var n := |view| - 1;
      assert Hashed(view[..n], hash) by {
        forall l, j | 0 <= l < n && j in ToMap(view[..n][l])
          ensures hash(j) == l
        {
          assert view[..n][l] == view[l];
        }
      }
      ContentsAt(view[..n], hash, k);
    }
  }

  /** The lists together have as many nodes as the table has keys. */
  lemma {:induction false} ContentsSize<K(!new), V>(view: seq<seq<Entry<K, V>>>, hash: K -> nat, cmp: (K, K) -> int)
    requires Hashed(view, hash) && IsOrder(cmp) && forall l :: 0 <= l < |view| ==> Sorted(view[l], cmp)
    ensures |Contents(view)| == Total(view)
  {
    hide ToMap, IsOrder, Sorted;
    if view != [] {
      var n := |view| - 1;
      assert Hashed(view[..n], hash) by {
        forall l, j | 0 <= l < n && j in ToMap(view[..n][l])
          ensures hash(j) == l
        {
          assert view[..n][l] == view[l];
        }
      }
      ContentsSize(view[..n], hash, cmp);
      MapSize(view[n], cmp);
      forall k | k in Contents(view[..n])
        ensures k !in ToMap(view[n])
      {
        ContentsAt(view[..n], hash, k);
      }
      UnionSize(Contents(view[..n]), ToMap(view[n]));
    }
  }

  lemma UnionSize<K, V>(a: map<K, V>, b: map<K, V>)
    requires a.Keys !! b.Keys
    ensures |a + b| == |a| + |b|
  {
    assert (a + b).Keys == a.Keys + b.Keys;
    assert |a.Keys| == |a| && |b.Keys| == |b| && |(a + b).Keys| == |a + b|;
  }

  /** updateNode on the list of the key's hash sets the key in the table. */
  lemma PutInTable<K(!new), V>(view: seq<seq<Entry<K, V>>>, hash: K -> nat, cmp: (K, K) -> int, k: K, v: V)
    requires Hashed(view, hash) && IsOrder(cmp) && hash(k) < |view| && Sorted(view[hash(k)], cmp)
    ensures var now := view[hash(k) := Put(view[hash(k)], cmp, k, v)];
      Hashed(now, hash) && Contents(now) == Contents(view)[k := v]
    ensures Find(view[hash(k)], cmp, k).Some? <==> k in Contents(view)
    ensures |Put(view[hash(k)], cmp, k, v)| > |view[hash(k)]| <==> k !in Contents(view)
  {
    hide ToMap, IsOrder, Sorted, Contents, Put, Find;
    var l := hash(k);
    var now := view[l := Put(view[l], cmp, k, v)];
    PutIsUpdate(view[l], cmp, k, v);
    FindIsLookup(view[l], cmp, k);
    ContentsAt(view, hash, k);
    forall j
      ensures j in Contents(now) <==> j in Contents(view)[k := v]
      ensures j in Contents(now) ==> Contents(now)[j] == Contents(view)[k := v][j]
    {
      ContentsAt(view, hash, j);
      ContentsAt(now, hash, j);
    }
  }

  /** fetchNode on the list of the key's hash finds the key exactly if the table has it. */
  lemma FindInTable<K(!new), V>(view: seq<seq<Entry<K, V>>>, hash: K -> nat, cmp: (K, K) -> int, k: K)
    requires Hashed(view, hash) && IsOrder(cmp) && hash(k) < |view| && Sorted(view[hash(k)], cmp)
    ensures Find(view[hash(k)], cmp, k) == if k in Contents(view) then Some(Contents(view)[k]) else None
  {
    hide ToMap, IsOrder, Sorted, Contents, Find;
    FindIsLookup(view[hash(k)], cmp, k);
    ContentsAt(view, hash, k);
  }

  /** Writing the data of a node sets its key in the table. */
  lemma SetInTable<K(!new), V>(view: seq<seq<Entry<K, V>>>, hash: K -> nat, cmp: (K, K) -> int, i: nat, k: K, v: V)
    requires Hashed(view, hash) && IsOrder(cmp) && hash(k) < |view| && Sorted(view[hash(k)], cmp)
    requires i < |view[hash(k)]| && view[hash(k)][i].key == k
    ensures var now := view[hash(k) := view[hash(k)][i := Entry(k, v)]];
      Hashed(now, hash) && Contents(now) == Contents(view)[k := v]
    ensures k in Contents(view)
  {
    hide ToMap, Contents, Put, Find, Hashed;
    var s := view[hash(k)];
    forall j | 0 <= j < i
      ensures cmp(s[j].key, k) > 0
    {
    }
    assert cmp(k, k) == 0;
    PutOverwrites(s, cmp, k, v, i);
    PutInTable(view, hash, cmp, k, v);
  }

  /** Filtering one list filters the table for the keys of that hash. */
  lemma FilterTable<K(!new), V>(
    view: seq<seq<Entry<K, V>>>, hash: K -> nat, pred: (K, V) -> bool, l: nat, s: seq<Entry<K, V>>)
    requires Hashed(view, hash) && l < |view|
    requires ToMap(s) == map k | k in ToMap(view[l]) && !pred(k, ToMap(view[l])[k]) :: ToMap(view[l])[k]
    ensures Hashed(view[l := s], hash)
    ensures Contents(view[l := s])
      == map k | k in Contents(view) && !(hash(k) == l && pred(k, Contents(view)[k])) :: Contents(view)[k]
  {
    hide ToMap, Contents;
    var now := view[l := s];
    var want := map k | k in Contents(view) && !(hash(k) == l && pred(k, Contents(view)[k])) :: Contents(view)[k];
    forall j
      ensures j in Contents(now) <==> j in want
      ensures j in Contents(now) ==> Contents(now)[j] == want[j]
    {
      ContentsAt(view, hash, j);
      ContentsAt(now, hash, j);
    }
  }
}
