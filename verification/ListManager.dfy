/**
 The list manager of src/slist.c on the heap: linked nodes, any number of
 lists, one free list, two counters.
 */
module ListManager {
  import opened Wrappers
  import opened SortedList
  import opened Interleaving

  /** struct node_t; the owner is the list a node is on, -1 for the free list. */
  class Node<K, V> {
    var nxt: Node?<K, V>
    var key: K
    var val: V
    ghost var owner: int

    constructor (key: K, val: V)
      ensures this.key == key && this.val == val
    {
      this.key, this.val := key, val;
      nxt := null;
    }
  }

  /** A place in a list: position i of list l, the node before it, and the node to link or unlink there. */
  datatype Place<K, V> = Place(l: nat, i: nat, prv: Node?<K, V>, node: Node<K, V>)

  ghost function At<K, V>(s: seq<Node<K, V>>, i: nat): Node?<K, V> {
    if i < |s| then s[i] else null
  }

  /** The number of nodes on all lists. */
  ghost function Total<K, V>(view: seq<seq<Entry<K, V>>>): nat {
    if view == [] then 0 else Total(view[..|view| - 1]) + |view[|view| - 1]|
  }

  lemma {:induction false} TotalUpdate<K, V>(view: seq<seq<Entry<K, V>>>, l: nat, s: seq<Entry<K, V>>)
    requires l < |view|
    ensures Total(view[l := s]) == Total(view) - |view[l]| + |s|
  {
    var n := |view| - 1;
    if l < n {
      assert view[l := s][..n] == view[..n][l := s];
      TotalUpdate(view[..n], l, s);
    } else {
      assert view[l := s][..n] == view[..n];
    }
  }

  class Manager<K(!new, ==), V(==)> {
    const cmp: (K, K) -> int
    const heads: array<Node?<K, V>> // the list heads; a list is its index
    var freeHead: Node?<K, V>
    var count: nat
    var freeCount: nat

    ghost var view: seq<seq<Entry<K, V>>> // what each list holds
    ghost var spines: seq<seq<Node<K, V>>> // the nodes of each list, in order
    ghost var free: seq<Node<K, V>> // the nodes of the free list, in order
    ghost var nodes: set<Node<K, V>> // every node ever allocated

    ghost predicate Valid()
      reads this, heads, nodes
    {
      && ListsOk()
      && count == Total(view)
      && (forall n :: n in nodes ==> Owned(n))
    }

    /** Valid, but for one node taken off the free list or allocated, and not yet linked. */
    ghost predicate ValidBut(tmp: Node<K, V>)
      reads this, heads, nodes
    {
      && ListsOk()
      && count == Total(view) + 1
      && tmp in nodes && tmp.owner == -2
      && (forall n :: n in nodes && n != tmp ==> Owned(n))
    }

    ghost predicate ListsOk()
      reads this, heads, nodes
    {
      && IsOrder(cmp)
      && |spines| == |view| == heads.Length
      && (forall l :: 0 <= l < |spines| ==> ListOk(l))
      && FreeOk()
      && freeCount == |free|
    }

    /** List l: linked from its head, strictly sorted, every node its own. */
    ghost predicate ListOk(l: nat)
      requires l < |spines| == |view| == heads.Length
      reads this, heads, nodes
    {
      && |spines[l]| == |view[l]|
      && heads[l] == At(spines[l], 0)
      && (forall j :: 0 <= j < |spines[l]| ==> NodeOk(l, j))
      && Sorted(view[l], cmp)
    }

    ghost predicate NodeOk(l: nat, j: nat)
      requires l < |spines| == |view| && j < |spines[l]| == |view[l]|
      reads this, nodes
    {
      var n := spines[l][j];
      && n in nodes && n.owner == l
      && n.key == view[l][j].key && n.val == view[l][j].val
      && n.nxt == At(spines[l], j + 1)
    }

    ghost predicate FreeOk()
      reads this, nodes
    {
      && freeHead == At(free, 0)
      && (forall j :: 0 <= j < |free| ==>
            free[j] in nodes && free[j].owner == -1 && free[j].nxt == At(free, j + 1))
      && (forall i, j :: 0 <= i < j < |free| ==> free[i] != free[j])
    }

    /** No node is lost: each is on the list of its owner. */
    ghost predicate Owned(n: Node<K, V>)
      reads this, n
    {
      if n.owner == -1 then n in free else 0 <= n.owner < |spines| && n in spines[n.owner]
    }

    /** Lists whose nodes did not change are still in order. */
    twostate lemma ListsKept(l: int)
      requires old(ListsOk()) && old(nodes) <= nodes
      requires |spines| == |view| == heads.Length == old(|spines|)
      requires forall m :: 0 <= m < |spines| && m != l ==>
                 spines[m] == old(spines[m]) && view[m] == old(view[m]) && heads[m] == old(heads[m])
      requires forall n :: n in old(nodes) && 0 <= old(n.owner) && old(n.owner) != l ==> unchanged(n)
      ensures forall m :: 0 <= m < |spines| && m != l ==> ListOk(m)
    {
      forall m | 0 <= m < |spines| && m != l
        ensures ListOk(m)
      {
        assert old(ListOk(m));
        forall j | 0 <= j < |spines[m]|
          ensures NodeOk(m, j)
        {
          assert old(NodeOk(m, j));
        }
      }
    }

    constructor (cmp: (K, K) -> int, lists: nat)
      requires IsOrder(cmp)
      ensures Valid() && fresh(heads) && this.cmp == cmp && nodes == {}
      ensures view == seq(lists, _ => []) && freeCount == 0
    {
      this.cmp := cmp;
      heads := new Node?<K, V>[lists](_ => null);
      freeHead, count, freeCount := null, 0, 0;
      view := seq(lists, _ => []);
      spines := seq(lists, _ => []);
      free, nodes := [], {};
      new;
      EmptyTotal(view);
    }

    lemma {:induction false} EmptyTotal(view: seq<seq<Entry<K, V>>>)
      requires forall l :: 0 <= l < |view| ==> view[l] == []
      ensures Total(view) == 0
    {
      if view != [] {
        EmptyTotal(view[..|view| - 1]);
      }
    }

    ghost predicate Distinct(l: nat)
      requires l < |spines|
      reads this
    {
      forall i, j :: 0 <= i < j < |spines[l]| ==> spines[l][i] != spines[l][j]
    }

    /** One node per key, so the nodes of a list differ. */
    lemma DistinctNodes(l: nat)
      requires ListsOk() && l < |spines|
      ensures |spines[l]| == |view[l]| && Distinct(l)
    {
      hide IsOrder;
      assert ListOk(l);
      forall i, j | 0 <= i < j < |spines[l]|
        ensures spines[l][i] != spines[l][j]
      {
        assert NodeOk(l, i) && NodeOk(l, j);
        OrderFacts(cmp, view[l][i].key, view[l][j].key);
      }
    }

    /** The nodes on the first m lists. */
    ghost function OnFirst(m: int): (r: set<Node<K, V>>)
      reads this, nodes
    {
      set n | n in nodes && 0 <= n.owner < m
    }

    lemma {:induction false} OnFirstSize(m: nat)
      requires Valid() && m <= |view|
      ensures |OnFirst(m)| == Total(view[..m])
    {
      hide IsOrder, Sorted;
      if m > 0 {
        OnFirstSize(m - 1);
        OnFirstMore(m - 1);
        DistinctNodes(m - 1);
        DistinctSize(spines[m - 1]);
        assert view[..m][..m - 1] == view[..m - 1];
      }
    }

    lemma OnFirstMore(m: nat)
      requires Valid() && m < |view| && m < |spines|
      ensures OnFirst(m + 1) == OnFirst(m) + Members(spines[m]) && OnFirst(m) !! Members(spines[m])
    {
      hide IsOrder, Sorted, Total, FreeOk;
      assert ListOk(m);
      forall n | n in OnFirst(m + 1)
        ensures n in OnFirst(m) || n in Members(spines[m])
      {
        assert Owned(n);
      }
      forall n | n in Members(spines[m])
        ensures n in OnFirst(m + 1) && n !in OnFirst(m)
      {
        var j :| 0 <= j < |spines[m]| && spines[m][j] == n;
        assert NodeOk(m, j);
      }
    }

    ghost function Members(s: seq<Node<K, V>>): set<Node<K, V>> {
      set n | n in s
    }

    lemma {:induction false} DistinctSize(s: seq<Node<K, V>>)
      requires forall i, j :: 0 <= i < j < |s| ==> s[i] != s[j]
      ensures |Members(s)| == |s|
    {
      if s != [] {
        var m := |s| - 1;
        DistinctSize(s[..m]);
        assert Members(s) == Members(s[..m]) + {s[m]};
      }
    }

    /** Conservation: every node ever allocated is counted once, as used or as free. */
    lemma NodesCounted()
      requires Valid()
      ensures |nodes| == count + freeCount
    {
      hide IsOrder, Sorted;
      OnFirstSize(|view|);
      assert view[..|view|] == view;
      DistinctSize(free);
      forall n | n in nodes
        ensures n in OnFirst(|view|) || n in Members(free)
      {
        assert Owned(n);
      }
      assert nodes == OnFirst(|view|) + Members(free);
    }

    /** Nodes on lists stay on their lists and keep their keys. */
    twostate predicate NodesStay()
      reads this, nodes
    {
      && old(nodes) <= nodes && |spines| == old(|spines|)
      && forall n :: n in old(nodes) && old(n.owner) >= 0 ==> n.owner == old(n.owner) && n.key == old(n.key)
    }

    /** What taking a node off the free list, or allocating one, changes. */
    twostate predicate Taken(new tmp: Node<K, V>)
      reads this, nodes
    {
      && old(Valid()) && view == old(view) && spines == old(spines) && nodes == old(nodes) + {tmp} && tmp.owner == -2
      && (if old(free == []) then free == [] && tmp !in old(nodes) else tmp == old(free[0]) && free == old(free[1..]))
      && freeHead == At(free, 0)
      && (forall n :: n in old(nodes) && n != tmp ==> n.owner == old(n.owner) && n.nxt == old(n.nxt))
    }

    twostate lemma TakenRest(new tmp: Node<K, V>)
      requires Taken(tmp)
      ensures FreeOk() && forall n :: n in nodes && n != tmp ==> Owned(n)
    {
      hide IsOrder, Sorted, Total, ListOk;
      forall n | n in nodes && n != tmp
        ensures Owned(n)
      {
        assert old(Owned(n));
      }
    }

    /** Writing data leaves the free list and the owners alone. */
    twostate lemma DataSet()
      requires old(Valid()) && nodes == old(nodes) && free == old(free) && freeHead == old(freeHead) && spines == old(spines)
      requires forall n :: n in nodes ==> n.owner == old(n.owner) && n.nxt == old(n.nxt)
      ensures FreeOk() && forall n :: n in nodes ==> Owned(n)
    {
      hide IsOrder, Sorted, Total, ListOk;
      forall n | n in nodes
        ensures Owned(n)
      {
        assert old(Owned(n));
      }
    }

    /**
     getFreeNode, and the set callback that always follows it.  The free list
     is used first; mem says whether memory can be allocated.
     */
    method GetFreeNode(nxt: Node?<K, V>, k: K, v: V, mem: bool) returns (tmp: Node?<K, V>)
      requires Valid()
      modifies this`freeHead, this`count, this`freeCount, this`free, this`nodes, nodes
      ensures tmp == null <==> old(freeCount) == 0 && !mem
      ensures tmp == null ==> Valid() && unchanged(this)
      ensures tmp != null ==> ValidBut(tmp) && tmp.nxt == nxt && tmp.key == k && tmp.val == v
      ensures tmp != null ==> freeCount == if old(freeCount) > 0 then old(freeCount) - 1 else 0
      ensures view == old(view) && spines == old(spines)
      ensures forall n :: n in old(nodes) && old(n.owner) >= 0 ==> unchanged(n)
      ensures old(nodes) <= nodes && fresh(nodes - old(nodes))
      ensures nodes != old(nodes) ==> old(freeCount) == 0
    {
      hide IsOrder, Sorted, Total, ListOk, Owned;
      assert free != [] ==> free[0] in nodes && free[0].nxt == At(free, 1);
      if freeHead == null {
        if !mem {
          return null;
        }
        tmp := new Node(k, v);
        nodes := nodes + {tmp};
      } else {
        freeCount := freeCount - 1;
        tmp := freeHead;
        freeHead := tmp.nxt;
        free := free[1..];
        tmp.key, tmp.val := k, v;
      }
      tmp.nxt := nxt;
      tmp.owner := -2;
      count := count + 1;
      assert Taken(tmp);
      TakenRest(tmp);
      ListsKept(-1);
    }

    /** What linking a loose node before position i of list l changes. */
    twostate predicate Linked(p: Place<K, V>)
      reads this, heads, nodes
    {
      var Place(l, i, prv, tmp) := p;
      && old(ValidBut(tmp) && l < |spines| && ListOk(l) && i <= |spines[l]| && Distinct(l))
      && prv == old(if i == 0 then null else spines[l][i - 1]) && old(tmp.nxt == At(spines[l], i))
      && view == old(view[l := view[l][..i] + [Entry(tmp.key, tmp.val)] + view[l][i..]])
      && spines == old(spines[l := spines[l][..i] + [tmp] + spines[l][i..]])
      && Sorted(view[l], cmp)
      && nodes == old(nodes) && free == old(free) && freeHead == old(freeHead)
      && freeCount == old(freeCount) && count == old(count)
      && (forall m :: 0 <= m < heads.Length && m != l ==> heads[m] == old(heads[m]))
      && heads[l] == (if i == 0 then tmp else old(heads[l]))
      && tmp.owner == l && tmp.nxt == old(tmp.nxt) && tmp.key == old(tmp.key) && tmp.val == old(tmp.val)
      && (forall n :: n in nodes && n != tmp ==>
            n.owner == old(n.owner) && n.key == old(n.key) && n.val == old(n.val))
      && (forall n :: n in nodes && n != tmp ==> n.nxt == if n == prv then tmp else old(n.nxt))
    }

    twostate lemma LinkedList(p: Place<K, V>)
      requires Linked(p)
      ensures ListOk(p.l)
    {
      var Place(l, i, prv, tmp) := p;
      hide IsOrder, Owned, FreeOk;
      assert old(ListOk(l));
      forall j | 0 <= j < |spines[l]|
        ensures NodeOk(l, j)
      {
        assert j < i ==> old(NodeOk(l, j));
        assert i < j ==> old(NodeOk(l, j - 1));
      }
    }

    twostate lemma LinkedRest(p: Place<K, V>)
      requires Linked(p)
      ensures FreeOk() && forall n :: n in nodes ==> Owned(n)
    {
      var Place(l, i, prv, tmp) := p;
      hide IsOrder, Sorted, Total;
      assert old(ListOk(l)) && (i > 0 ==> old(NodeOk(l, i - 1)));
      forall n | n in nodes
        ensures Owned(n)
      {
        assert n != tmp ==> old(Owned(n));
      }
    }

    /** A loose node linked before position i of list l: after prv, or at the head. */
    method Link(l: nat, prv: Node?<K, V>, tmp: Node<K, V>, ghost i: nat)
      requires ValidBut(tmp) && l < |view| && l < |spines| && i <= |spines[l]| == |view[l]|
      requires prv == (if i == 0 then null else spines[l][i - 1]) && tmp.nxt == At(spines[l], i)
      requires Sorted(view[l][..i] + [Entry(tmp.key, tmp.val)] + view[l][i..], cmp)
      modifies this`view, this`spines, heads, nodes
      ensures Valid()
      ensures view == old(view[l := view[l][..i] + [Entry(tmp.key, tmp.val)] + view[l][i..]])
      ensures spines == old(spines)[l := old(spines[l])[..i] + [tmp] + old(spines[l])[i..]]
      ensures NodesStay()
    {
      hide IsOrder, Owned, FreeOk, Sorted, Total;
      assert ListOk(l) && (i > 0 ==> NodeOk(l, i - 1));
      DistinctNodes(l);
      tmp.owner := l;
      if prv == null {
        heads[l] := tmp;
      } else {
        prv.nxt := tmp;
      }
      ghost var s := view[l][..i] + [Entry(tmp.key, tmp.val)] + view[l][i..];
      TotalUpdate(view, l, s);
      view := view[l := s];
      spines := spines[l := spines[l][..i] + [tmp] + spines[l][i..]];
      assert Linked(Place(l, i, prv, tmp));
      LinkedList(Place(l, i, prv, tmp));
      LinkedRest(Place(l, i, prv, tmp));
      ListsKept(l);
    }

    /** getFreeNode and the link: a new node for k before position i of list l. */
    method InsertNode(l: nat, prv: Node?<K, V>, cur: Node?<K, V>, ghost i: nat, k: K, v: V, mem: bool) returns (ok: bool)
      requires Valid() && l < |view| && l < |spines| && i <= |spines[l]| == |view[l]|
      requires prv == (if i == 0 then null else spines[l][i - 1]) && cur == At(spines[l], i)
      requires Sorted(view[l][..i] + [Entry(k, v)] + view[l][i..], cmp)
      modifies this, heads, nodes
      ensures Valid() && ok == (old(freeCount) > 0 || mem)
      ensures view == if ok then old(view)[l := old(view[l])[..i] + [Entry(k, v)] + old(view[l])[i..]] else old(view)
      ensures freeCount == if ok && old(freeCount) > 0 then old(freeCount) - 1 else old(freeCount)
      ensures NodesStay()
      ensures old(nodes) <= nodes && fresh(nodes - old(nodes))
      ensures nodes != old(nodes) ==> old(freeCount) == 0
    {
      hide IsOrder, Owned, ListOk, FreeOk, Sorted, Total, At;
      var tmp := GetFreeNode(cur, k, v, mem);
      if tmp == null {
        return false;
      }
      Link(l, prv, tmp, i);
      return true;
    }

    /**
     updateNode: list l becomes what Put makes of it.  It fails only when a
     node is needed, the free list is empty and memory cannot be allocated.
     */
    method UpdateNode(l: nat, k: K, v: V, mem: bool) returns (ok: bool)
      requires Valid() && l < |view|
      modifies this, heads, nodes
      ensures Valid() && ok == (Find(old(view[l]), cmp, k).Some? || old(freeCount) > 0 || mem)
      ensures view == if ok then old(view)[l := Put(old(view[l]), cmp, k, v)] else old(view)
      ensures freeCount == if |view[l]| > |old(view[l])| && old(freeCount) > 0 then old(freeCount) - 1 else old(freeCount)
      ensures NodesStay()
      ensures old(nodes) <= nodes && fresh(nodes - old(nodes))
      ensures nodes != old(nodes) ==> old(freeCount) == 0
    {
      hide IsOrder, Put, Find, Owned, FreeOk, Total;
      assert ListOk(l);
      ghost var s := view[l];
      PutSorted(s, cmp, k, v);
      var cur := heads[l];
      if cur == null {
        PutInserts(s, cmp, k, v, 0);
        ok := InsertNode(l, null, null, 0, k, v, mem);
        return;
      }
      assert NodeOk(l, 0);
      var c := cmp(cur.key, k);
      if c < 0 {
        PutInserts(s, cmp, k, v, 0);
        ok := InsertNode(l, null, cur, 0, k, v, mem);
        return;
      }
      var prv: Node?<K, V> := null;
      ghost var i := 0;
      while true
        invariant 0 <= i < |s| == |spines[l]| && cur == spines[l][i]
        invariant prv == (if i == 0 then null else spines[l][i - 1])
        invariant forall j :: 0 <= j < i ==> cmp(s[j].key, k) > 0
        invariant c == cmp(s[i].key, k)
        decreases |s| - i
      {
        assert NodeOk(l, i);
        if c == 0 {
          PutOverwrites(s, cmp, k, v, i);
          OrderFacts(cmp, s[i].key, k);
          SetValue(l, cur, i, v);
          return true;
        } else if c > 0 {
          prv := cur;
          cur := cur.nxt;
          i := i + 1;
          if cur == null {
            PutInserts(s, cmp, k, v, i);
            ok := InsertNode(l, prv, null, i, k, v, mem);
            return;
          }
        } else {
          PutInserts(s, cmp, k, v, i);
          ok := InsertNode(l, prv, cur, i, k, v, mem);
          return;
        }
        assert NodeOk(l, i);
        c := cmp(cur.key, k);
      }
    }

    /** fetchNode: the node of list l that holds k, if there is one; the walk stops early at a node beyond k. */
    method FetchNode(l: nat, k: K) returns (r: Node?<K, V>, ghost i: nat)
      requires Valid() && l < |view|
      ensures r == null <==> Find(view[l], cmp, k) == None
      ensures r != null ==> i < |spines[l]| == |view[l]| && r == spines[l][i]
      ensures r != null ==> r.key == k == view[l][i].key && Find(view[l], cmp, k) == Some(r.val)
    {
      hide IsOrder, Find;
      assert ListOk(l);
      i := 0;
      r := heads[l];
      while r != null
        invariant i <= |view[l]| && r == At(spines[l], i)
        invariant forall j :: 0 <= j < i ==> cmp(view[l][j].key, k) > 0
        decreases |view[l]| - i
      {
        assert NodeOk(l, i);
        var c := cmp(r.key, k);
        if c == 0 {
          PutOverwrites(view[l], cmp, k, r.val, i);
          OrderFacts(cmp, r.key, k);
          return;
        } else if c < 0 {
          PutInserts(view[l], cmp, k, r.val, i);
          r := null;
          return;
        }
        r := r.nxt;
        i := i + 1;
      }
      if |view[l]| > 0 {
        PutInserts(view[l], cmp, k, view[l][0].val, i);
      }
      FindInEmpty(view[l], k);
    }

    lemma FindInEmpty(s: seq<Entry<K, V>>, k: K)
      ensures s == [] ==> Find(s, cmp, k) == None
    {
    }

    /** The data of node i of list l written in place; its key stays. */
    method SetValue(l: nat, n: Node<K, V>, ghost i: nat, v: V)
      requires Valid() && l < |view| && i < |spines[l]| == |view[l]| && n == spines[l][i]
      modifies this`view, nodes
      ensures Valid() && nodes == old(nodes)
      ensures view == old(view)[l := old(view[l])[i := Entry(old(view[l][i]).key, v)]]
      ensures NodesStay()
    {
      hide IsOrder, Owned, FreeOk, Total;
      assert ListOk(l) && NodeOk(l, i);
      DistinctNodes(l);
      n.val := v;
      ghost var s := view[l][i := Entry(view[l][i].key, v)];
      TotalUpdate(view, l, s);
      view := view[l := s];
      DataSet();
      ListsKept(l);
      forall j | 0 <= j < |spines[l]|
        ensures NodeOk(l, j)
      {
        assert old(NodeOk(l, j));
      }
    }

    /** What unlinking node i of list l to the free list changes. */
    twostate predicate Unlinked(p: Place<K, V>)
      reads this, heads, nodes
    {
      var Place(l, i, prv, cur) := p;
      && old(Valid() && l < |spines| && ListOk(l) && i < |spines[l]| && Distinct(l))
      && prv == old(if i == 0 then null else spines[l][i - 1]) && cur == old(spines[l][i]) && cur in nodes
      && view == old(view[l := Remove(view[l], i)])
      && spines == old(spines[l := spines[l][..i] + spines[l][i + 1..]])
      && Sorted(view[l], cmp)
      && nodes == old(nodes) && free == [cur] + old(free) && freeHead == cur
      && freeCount == old(freeCount) + 1 && count == old(count) - 1
      && (forall m :: 0 <= m < heads.Length && m != l ==> heads[m] == old(heads[m]))
      && heads[l] == (if i == 0 then old(cur.nxt) else old(heads[l]))
      && cur.owner == -1 && cur.nxt == old(freeHead)
      && (forall n :: n in nodes && n != cur ==>
            n.owner == old(n.owner) && n.key == old(n.key) && n.val == old(n.val))
      && (forall n :: n in nodes && n != cur ==> n.nxt == if n == prv then old(cur.nxt) else old(n.nxt))
    }

    twostate lemma UnlinkedList(p: Place<K, V>)
      requires Unlinked(p)
      ensures ListOk(p.l)
    {
      var Place(l, i, prv, cur) := p;
      hide IsOrder, Owned, FreeOk;
      assert old(ListOk(l)) && old(NodeOk(l, i));
      forall j | 0 <= j < |spines[l]|
        ensures NodeOk(l, j)
      {
        assert old(NodeOk(l, if j < i then j else j + 1));
      }
    }

    twostate lemma UnlinkedFree(p: Place<K, V>)
      requires Unlinked(p)
      ensures FreeOk()
    {
      hide IsOrder, Sorted, Total, Distinct, Owned;
      var Place(l, i, prv, cur) := p;
      assert old(ListOk(l)) && old(NodeOk(l, i)) && (i > 0 ==> old(NodeOk(l, i - 1)));
    }

    twostate lemma UnlinkedOwners(p: Place<K, V>)
      requires Unlinked(p)
      ensures forall n :: n in nodes ==> Owned(n)
    {
      hide IsOrder, Sorted, Total, Distinct, ListOk, FreeOk;
      var Place(l, i, prv, cur) := p;
      forall n | n in nodes
        ensures Owned(n)
      {
        assert old(Owned(n));
        if n != cur && n.owner == l {
          var j :| 0 <= j < |old(spines[l])| && old(spines[l])[j] == n;
          assert spines[l][if j < i then j else j - 1] == n;
        }
      }
    }

    /** freeNode: the node goes to the front of the free list. */
    method FreeNode(cur: Node<K, V>)
      requires count > 0
      modifies this`freeHead, this`freeCount, this`count, this`free, cur`nxt, cur`owner
      ensures cur.nxt == old(freeHead) && freeHead == cur && free == [cur] + old(free) && cur.owner == -1
      ensures freeCount == old(freeCount) + 1 && count == old(count) - 1
    {
      cur.nxt := freeHead;
      freeHead := cur;
      freeCount := freeCount + 1;
      count := count - 1;
      cur.owner := -1;
      free := [cur] + free;
    }

    /** Unlinks node i of list l, after prv or at the head, and puts it on the free list. */
    method UnlinkNode(l: nat, prv: Node?<K, V>, cur: Node<K, V>, ghost i: nat)
      requires Valid() && l < |view| && l < |spines| && i < |spines[l]| == |view[l]|
      requires prv == (if i == 0 then null else spines[l][i - 1]) && cur == spines[l][i]
      modifies this, heads, nodes
      ensures Valid() && nodes == old(nodes)
      ensures view == old(view)[l := Remove(old(view[l]), i)]
      ensures spines == old(spines)[l := old(spines[l])[..i] + old(spines[l])[i + 1..]]
      ensures freeCount == old(freeCount) + 1
      ensures forall n :: n in nodes ==> n.key == old(n.key)
    {
      hide IsOrder, Owned, FreeOk, Sorted, Total, Remove;
      assert ListOk(l) && NodeOk(l, i) && (i > 0 ==> NodeOk(l, i - 1));
      DistinctNodes(l);
      TotalUpdate(view, l, Remove(view[l], i));
      RemoveSorted(view[l], i);
      if prv == null {
        heads[l] := cur.nxt;
      } else {
        prv.nxt := cur.nxt;
      }
      FreeNode(cur);
      view := view[l := Remove(view[l], i)];
      spines := spines[l := spines[l][..i] + spines[l][i + 1..]];
      assert Unlinked(Place(l, i, prv, cur));
      UnlinkedList(Place(l, i, prv, cur));
      UnlinkedFree(Place(l, i, prv, cur));
      UnlinkedOwners(Place(l, i, prv, cur));
      ListsKept(l);
    }

    lemma RemoveSorted(s: seq<Entry<K, V>>, i: nat)
      requires Sorted(s, cmp) && i < |s|
      ensures Sorted(Remove(s, i), cmp)
    {
    }

    /** Other threads between two lock sections of the cleaner: any calls of updateNode, on any lists. */
    method Interfere(l: nat, calls: seq<Call<K, V>>) returns (ghost log: seq<Event<K, V>>)
      requires Valid() && l < |view| && (forall i :: 0 <= i < |calls| ==> calls[i].list < |view|)
      modifies this, heads, nodes
      ensures Valid() && NodesStay()
      ensures view == Replay(old(view), cmp, l, log)
      ensures Calls(log) == calls && Removals(log) == 0 && |log| == |calls| && forall i :: 0 <= i < |log| ==> log[i].Updated?
      ensures fresh(nodes - old(nodes))
      ensures calls == [] ==> unchanged(this)
    {
      hide IsOrder, ListsOk, Owned;
      log := [];
      for i := 0 to |calls|
        invariant Valid() && NodesStay() && view == Replay(old(view), cmp, l, log)
        invariant Calls(log) == calls[..i] && Removals(log) == 0 && |log| == i && forall j :: 0 <= j < |log| ==> log[j].Updated?
        invariant fresh(nodes - old(nodes))
        invariant i == 0 ==> unchanged(this)
      {
        var c := calls[i];
        var ok := UpdateNode(c.list, c.key, c.val, c.mem);
        ghost var e: Event<K, V> := Updated(c, ok);
        assert (log + [e])[..|log|] == log;
        log := log + [e];
      }
      assert calls[..|calls|] == calls;
    }

    /** A node of list l is somewhere on it. */
    lemma OnList(l: nat, n: Node<K, V>) returns (i: nat)
      requires Valid() && l < |spines| && n in nodes && n.owner == l
      ensures i < |spines[l]| == |view[l]| && spines[l][i] == n
      ensures n.key == view[l][i].key && n.val == view[l][i].val && n.nxt == At(spines[l], i + 1)
    {
      hide IsOrder;
      assert Owned(n) && ListOk(l);
      i :| 0 <= i < |spines[l]| && spines[l][i] == n;
      assert NodeOk(l, i);
    }

    /** The gap before lock section t of a cleanup. */
    method Gap(l: nat, pred: (K, V) -> bool, env: seq<seq<Call<K, V>>>, t: nat,
               ghost start: seq<seq<Entry<K, V>>>, ghost log: seq<Event<K, V>>, ghost after: Option<K>)
      returns (ghost log': seq<Event<K, V>>)
      requires Valid() && l < |view| && Tracked(start, cmp, l, pred, log, view, after)
      requires forall t, i :: 0 <= t < |env| && 0 <= i < |env[t]| ==> env[t][i].list < |view|
      requires Calls(log) == Flatten(env, t)
      modifies this, heads, nodes
      ensures Valid() && NodesStay() && |view| == old(|view|) && fresh(nodes - old(nodes))
      ensures Tracked(start, cmp, l, pred, log', view, after)
      ensures Calls(log') == Flatten(env, t + 1) && Removals(log') == Removals(log)
      ensures t >= |env| ==> unchanged(this)
      ensures IsOrder(cmp) && forall m :: 0 <= m < |view| ==> Sorted(view[m], cmp)
    {
      hide IsOrder, ListOk, FreeOk, Owned, Sorted, Replay, Tracked;
      ListFacts(l);
      ghost var more := Interfere(l, if t < |env| then env[t] else []);
      TrackedUpdates(start, cmp, l, pred, log, old(view), after, more);
      CallsAppend(log, more);
      log' := log + more;
      ListFacts(l);
    }

    /** What Valid says of the list heads. */
    lemma ListFacts(l: nat)
      requires Valid() && l < |view|
      ensures IsOrder(cmp) && |spines| == |view| == heads.Length && count == Total(view) && |spines[l]| == |view[l]| && heads[l] == At(spines[l], 0)
      ensures forall m :: 0 <= m < |view| ==> Sorted(view[m], cmp)
    {
      hide IsOrder, Sorted;
      assert ListOk(l);
      forall m | 0 <= m < |view|
        ensures Sorted(view[m], cmp)
      {
        assert ListOk(m);
      }
    }

    lemma NodeFacts(l: nat, i: nat)
      requires Valid() && l < |view| && l < |spines| && i < |spines[l]| == |view[l]|
      ensures NodeOk(l, i)
    {
      hide IsOrder, Sorted;
      assert ListOk(l);
    }

    /** A lock section that removes node i of list l. */
    method Take(l: nat, pred: (K, V) -> bool, prv: Node?<K, V>, cur: Node<K, V>, ghost i: nat,
                ghost start: seq<seq<Entry<K, V>>>, ghost log: seq<Event<K, V>>, ghost after: Option<K>)
      returns (ghost log': seq<Event<K, V>>)
      requires Valid() && l < |view| && l < |spines| && i < |spines[l]| == |view[l]|
      requires prv == (if i == 0 then null else spines[l][i - 1]) && cur == spines[l][i]
      requires pred(cur.key, cur.val) && Tracked(start, cmp, l, pred, log, view, after)
      modifies this, heads, nodes
      ensures Valid() && nodes == old(nodes) && |view| == old(|view|) && |view[l]| == old(|view[l]|) - 1
      ensures spines == old(spines)[l := old(spines[l])[..i] + old(spines[l])[i + 1..]]
      ensures Tracked(start, cmp, l, pred, log', view, after)
      ensures Calls(log') == Calls(log) && Removals(log') == Removals(log) + 1
      ensures forall n :: n in nodes ==> n.key == old(n.key)
    {
      hide IsOrder, ListOk, FreeOk, Owned, Sorted, Replay, Tracked;
      ListFacts(l);
      NodeFacts(l, i);
      TrackedRemoval(start, cmp, l, pred, log, view, after, i);
      CallsAppend(log, [Removed(cur.key, cur.val)]);
      log' := log + [Removed(cur.key, cur.val)];
      UnlinkNode(l, prv, cur, i);
    }

    /** The first loop of cleanUpNodes: the head, until it is kept or the list is empty. */
    method CleanHead(l: nat, pred: (K, V) -> bool, env: seq<seq<Call<K, V>>>)
      returns (prv: Node?<K, V>, cnt: nat, steps: nat, ghost log: seq<Event<K, V>>)
      requires Valid() && l < |view|
      requires forall t, i :: 0 <= t < |env| && 0 <= i < |env[t]| ==> env[t][i].list < |view|
      modifies this, heads, nodes
      ensures Valid() && |view| == old(|view|) && old(nodes) <= nodes && fresh(nodes - old(nodes))
      ensures Calls(log) == Flatten(env, steps) && cnt == Removals(log)
      ensures env == [] ==> nodes == old(nodes)
      ensures prv == null ==> view[l] == [] && Tracked(old(view), cmp, l, pred, log, view, None)
      ensures prv != null ==> |spines| == |view| && spines[l] != [] && prv == spines[l][0]
      ensures prv != null ==> Tracked(old(view), cmp, l, pred, log, view, Some(prv.key))
    {
      hide Valid, IsOrder, Sorted, Replay, Tracked, Calls, Removals, Flatten;
      ghost var start := view;
      cnt, steps, log := 0, 0, [];
      TrackedAtStart(start, cmp, l, pred, env);
      while true
        invariant Valid() && old(nodes) <= nodes && fresh(nodes - old(nodes))
        invariant |view| == |start| && Tracked(start, cmp, l, pred, log, view, None)
        invariant Calls(log) == Flatten(env, steps) && cnt == Removals(log)
        invariant env == [] ==> nodes == old(nodes)
        decreases if steps < |env| then |env| - steps else 0, |view[l]|
      {
        log := Gap(l, pred, env, steps, start, log, None);
        steps := steps + 1;
        ListFacts(l);
        prv := heads[l];
        if prv == null {
          return;
        }
        NodeFacts(l, 0);
        if pred(prv.key, prv.val) {
          log := Take(l, pred, null, prv, 0, start, log, None);
          cnt := cnt + 1;
        } else {
          TrackedStep(start, cmp, l, pred, log, view, None, 0);
          return;
        }
      }
    }

    /** A gap of the second loop: prv stays on the list, because the cleaner is the only thread that removes. */
    method GapAfter(l: nat, pred: (K, V) -> bool, env: seq<seq<Call<K, V>>>, t: nat, prv: Node<K, V>, ghost i: nat,
                    ghost start: seq<seq<Entry<K, V>>>, ghost log: seq<Event<K, V>>)
      returns (ghost i': nat, ghost log': seq<Event<K, V>>)
      requires Valid() && l < |view| && |spines| == |view| && i < |spines[l]| && prv == spines[l][i]
      requires Tracked(start, cmp, l, pred, log, view, Some(prv.key))
      requires forall t, i :: 0 <= t < |env| && 0 <= i < |env[t]| ==> env[t][i].list < |view|
      requires Calls(log) == Flatten(env, t)
      modifies this, heads, nodes
      ensures Valid() && |view| == |spines| == old(|view|) && old(nodes) <= nodes && fresh(nodes - old(nodes))
      ensures i' < |spines[l]| && prv == spines[l][i']
      ensures Tracked(start, cmp, l, pred, log', view, Some(prv.key))
      ensures Calls(log') == Flatten(env, t + 1) && Removals(log') == Removals(log)
      ensures t >= |env| ==> spines == old(spines) && nodes == old(nodes) && i' == i
    {
      hide IsOrder, ListsOk, Owned, Sorted, Replay, Tracked;
      ListFacts(l);
      NodeFacts(l, i);
      log' := Gap(l, pred, env, t, start, log, Some(prv.key));
      i' := i;
      ListFacts(l);
      if t < |env| {
        i' := OnList(l, prv);
      }
    }

    /** One lock section of the second loop: the node after prv is removed, or becomes the next prv, or there is none. */
    method CleanNext(l: nat, pred: (K, V) -> bool, prv: Node<K, V>, ghost i: nat,
                     ghost start: seq<seq<Entry<K, V>>>, ghost log: seq<Event<K, V>>)
      returns (nxt: Node?<K, V>, cnt: nat, ghost i': nat, ghost log': seq<Event<K, V>>)
      requires Valid() && l < |view| && |spines| == |view| && i < |spines[l]| && prv == spines[l][i]
      requires Tracked(start, cmp, l, pred, log, view, Some(prv.key))
      modifies this, heads, nodes
      ensures Valid() && nodes == old(nodes) && |view| == |spines| == old(|view|)
      ensures Calls(log') == Calls(log) && Removals(log') == Removals(log) + cnt
      ensures nxt == null ==> unchanged(this) && log' == log && |spines[l]| == |view[l]| == i + 1
      ensures nxt == null ==> old(prv.key) == prv.key == view[l][i].key
      ensures nxt != null ==> i' < |spines[l]| && nxt == spines[l][i'] && |spines[l]| - i' < old(|spines[l]|) - i
      ensures nxt != null ==> Tracked(start, cmp, l, pred, log', view, Some(nxt.key))
    {
      hide IsOrder, ListsOk, Owned, Sorted, Replay, Tracked;
      i', log', cnt := i, log, 0;
      ListFacts(l);
      NodeFacts(l, i);
      nxt := prv.nxt;
      if nxt == null {
        return;
      }
      NodeFacts(l, i + 1);
      if pred(nxt.key, nxt.val) {
        log' := Take(l, pred, prv, nxt, i + 1, start, log, Some(prv.key));
        nxt, cnt := prv, 1;
        ListFacts(l);
      } else {
        TrackedStep(start, cmp, l, pred, log, view, Some(prv.key), i + 1);
        i' := i + 1;
      }
    }

    /**
     cleanUpNodes on list l, whose lock is dropped between any two of its
     steps: before step t other threads make the calls env[t].  The log is
     what happened to the lists, in order.  Every removed node was on the list
     and satisfied the predicate when it was removed, the result is their
     number, and every key that was there at the start and satisfied the
     predicate throughout was removed.
     */
    method CleanUpNodes(l: nat, pred: (K, V) -> bool, env: seq<seq<Call<K, V>>>)
      returns (cnt: nat, steps: nat, ghost log: seq<Event<K, V>>)
      requires Valid() && l < |view|
      requires forall t, i :: 0 <= t < |env| && 0 <= i < |env[t]| ==> env[t][i].list < |view|
      modifies this, heads, nodes
      ensures Valid() && old(nodes) <= nodes && fresh(nodes - old(nodes))
      ensures view == Replay(old(view), cmp, l, log)
      ensures Calls(log) == Flatten(env, steps)
      ensures cnt == Removals(log)
      ensures Justified(old(view), cmp, l, pred, log)
      ensures forall k :: Doomed(old(view[l]), l, pred, log, k) ==> WasRemoved(log, k)
      ensures env == [] ==> nodes == old(nodes)
    {
      hide Valid, IsOrder, Sorted, Justified, Doomed, WasRemoved, Replay, Tracked, Calls, Removals, Flatten;
      ghost var start := view;
      var prv: Node?<K, V>;
      prv, cnt, steps, log := CleanHead(l, pred, env);
      ListFacts(l);
      if prv == null {
        TrackedAtEnd(start, cmp, l, pred, log, view, None);
        return;
      }
      ghost var i: nat := 0;
      // prv is never removed, because this is the only thread that removes
      while true
        invariant Valid() && old(nodes) <= nodes && fresh(nodes - old(nodes))
        invariant |view| == |spines| == |start| && i < |spines[l]| && prv == spines[l][i]
        invariant Tracked(start, cmp, l, pred, log, view, Some(prv.key))
        invariant Calls(log) == Flatten(env, steps) && cnt == Removals(log)
        invariant env == [] ==> nodes == old(nodes)
        decreases if steps < |env| then |env| - steps else 0, |spines[l]| - i
      {
        i, log := GapAfter(l, pred, env, steps, prv, i, start, log);
        steps := steps + 1;
        var nxt, c;
        nxt, c, i, log := CleanNext(l, pred, prv, i, start, log);
        if nxt == null {
          ListFacts(l);
          TrackedAtEnd(start, cmp, l, pred, log, view, Some(prv.key));
          return;
        }
        prv, cnt := nxt, cnt + c;
      }
    }

    /** cleanUpNodes with nobody else at work: exactly the nodes that satisfy the predicate go to the free list. */
    method CleanUpAlone(l: nat, pred: (K, V) -> bool) returns (cnt: nat)
      requires Valid() && l < |view|
      modifies this, heads, nodes
      ensures Valid() && nodes == old(nodes)
      ensures |view| == old(|view|) && view == old(view)[l := view[l]] && |view[l]| + cnt == old(|view[l]|)
      ensures ToMap(view[l]) == map k | k in old(ToMap(view[l])) && !pred(k, old(ToMap(view[l]))[k]) :: old(ToMap(view[l]))[k]
      ensures freeCount == old(freeCount) + cnt
    {
      hide Valid, IsOrder, Sorted, Justified, Doomed, WasRemoved, Replay, Calls, Removals, ToMap;
      NodesCounted();
      ListFacts(l);
      ghost var start := view;
      var steps;
      ghost var log;
      cnt, steps, log := CleanUpNodes(l, pred, []);
      NothingCalled<K, V>(steps);
      CleanedAlone(start, cmp, l, pred, log);
      NodesCounted();
      TotalUpdate(start, l, view[l]);
      ListFacts(l);
    }
  }
}
