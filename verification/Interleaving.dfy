/**
 The history of a list cleanup interleaved with updates from other threads,
 one event per lock section that changes a list, and what it means.
 */
module Interleaving {
  import opened Wrappers
  import opened SortedList

  /** A call of updateNode by another thread; mem: whether memory can be allocated in it. */
  datatype Call<K, V> = Call(list: nat, key: K, val: V, mem: bool)

  datatype Event<K, V> =
    | Updated(call: Call<K, V>, ok: bool)
    | Removed(key: K, val: V)

  /** The list without the node of key k. */
  function Delete<K(==), V>(s: seq<Entry<K, V>>, k: K): seq<Entry<K, V>> {
    if s == [] then []
    else if s[0].key == k then s[1..]
    else [s[0]] + Delete(s[1..], k)
  }

  lemma {:induction false} DeleteIsRemove<K(!new), V>(s: seq<Entry<K, V>>, cmp: (K, K) -> int, i: nat)
    requires IsOrder(cmp) && Sorted(s, cmp) && i < |s|
    ensures Delete(s, s[i].key) == Remove(s, i)
  {
    hide IsOrder;
    if i > 0 {
      OrderFacts(cmp, s[0].key, s[i].key);
      DeleteIsRemove(s[1..], cmp, i - 1);
      assert Remove(s, i) == [s[0]] + Remove(s[1..], i - 1);
    }
  }

  /** What one event does to the lists; removals are from list l. */
  function Apply<K(==), V>(lists: seq<seq<Entry<K, V>>>, cmp: (K, K) -> int, l: nat, e: Event<K, V>): (r: seq<seq<Entry<K, V>>>)
    ensures |r| == |lists|
  {
    match e
    case Updated(c, ok) =>
      if ok && c.list < |lists| then lists[c.list := Put(lists[c.list], cmp, c.key, c.val)] else lists
    case Removed(k, _) =>
      if l < |lists| then lists[l := Delete(lists[l], k)] else lists
  }

  /** An update that succeeds sets its key on its list and leaves every other list; one that fails changes nothing. */
  lemma UpdateApplies<K(!new), V>(lists: seq<seq<Entry<K, V>>>, cmp: (K, K) -> int, l: nat, c: Call<K, V>, ok: bool)
    requires IsOrder(cmp) && c.list < |lists| && Sorted(lists[c.list], cmp)
    ensures var r := Apply(lists, cmp, l, Updated(c, ok));
      && (ok ==> ToMap(r[c.list]) == ToMap(lists[c.list])[c.key := c.val] && Sorted(r[c.list], cmp))
      && (forall m :: 0 <= m < |lists| && m != c.list ==> r[m] == lists[m])
      && (!ok ==> r == lists)
  {
    hide IsOrder, Sorted, ToMap, Put;
    PutIsUpdate(lists[c.list], cmp, c.key, c.val);
  }

  function Replay<K(==), V>(lists: seq<seq<Entry<K, V>>>, cmp: (K, K) -> int, l: nat, log: seq<Event<K, V>>): (r: seq<seq<Entry<K, V>>>)
    ensures |r| == |lists|
  {
    if log == [] then lists
    else Apply(Replay(lists, cmp, l, log[..|log| - 1]), cmp, l, log[|log| - 1])
  }

  /** Every removal took a node that was on list l at that moment and satisfied the predicate at that moment. */
  ghost predicate Justified<K, V>(
    lists: seq<seq<Entry<K, V>>>, cmp: (K, K) -> int, l: nat, pred: (K, V) -> bool, log: seq<Event<K, V>>)
    requires l < |lists|
  {
    forall i :: 0 <= i < |log| && log[i].Removed? ==>
      pred(log[i].key, log[i].val) && Entry(log[i].key, log[i].val) in Replay(lists, cmp, l, log[..i])[l]
  }

  /** The calls of a history, in order. */
  function Calls<K, V>(log: seq<Event<K, V>>): seq<Call<K, V>> {
    if log == [] then []
    else
      var rest, e := Calls(log[..|log| - 1]), log[|log| - 1];
      if e.Updated? then rest + [e.call] else rest
  }

  function Removals<K, V>(log: seq<Event<K, V>>): nat {
    if log == [] then 0
    else Removals(log[..|log| - 1]) + (if log[|log| - 1].Removed? then 1 else 0)
  }

  /** The calls of the first n gaps between lock sections. */
  function Flatten<K, V>(env: seq<seq<Call<K, V>>>, n: nat): seq<Call<K, V>> {
    if n == 0 then []
    else Flatten(env, n - 1) + (if n <= |env| then env[n - 1] else [])
  }

  ghost predicate WasRemoved<K, V>(log: seq<Event<K, V>>, k: K) {
    exists i :: 0 <= i < |log| && log[i].Removed? && log[i].key == k
  }

  /** Key k is on the list at the start with data that satisfies the predicate, and every update of it keeps that so. */
  ghost predicate Doomed<K, V>(s: seq<Entry<K, V>>, l: nat, pred: (K, V) -> bool, log: seq<Event<K, V>>, k: K) {
    && k in ToMap(s) && pred(k, ToMap(s)[k])
    && forall i :: 0 <= i < |log| && log[i].Updated? && log[i].call.list == l && log[i].call.key == k ==>
         pred(k, log[i].call.val)
  }

  /** Key k is on the list, its data satisfies the predicate, and it is still ahead of the cleaner. */
  ghost predicate Pending<K, V>(s: seq<Entry<K, V>>, cmp: (K, K) -> int, pred: (K, V) -> bool, after: Option<K>, k: K) {
    && k in ToMap(s) && pred(k, ToMap(s)[k])
    && (after.Some? ==> cmp(after.value, k) > 0)
  }

  lemma {:induction false} ReplayAppend<K, V>(
    lists: seq<seq<Entry<K, V>>>, cmp: (K, K) -> int, l: nat, a: seq<Event<K, V>>, b: seq<Event<K, V>>)
    ensures Replay(lists, cmp, l, a + b) == Replay(Replay(lists, cmp, l, a), cmp, l, b)
  {
    if b == [] {
      assert a + b == a;
    } else {
      ReplayAppend(lists, cmp, l, a, b[..|b| - 1]);
      assert (a + b)[..|a + b| - 1] == a + b[..|b| - 1];
    }
  }

  lemma {:induction false} CallsAppend<K, V>(a: seq<Event<K, V>>, b: seq<Event<K, V>>)
    ensures Calls(a + b) == Calls(a) + Calls(b) && Removals(a + b) == Removals(a) + Removals(b)
  {
    if b == [] {
      assert a + b == a;
    } else {
      CallsAppend(a, b[..|b| - 1]);
      assert (a + b)[..|a + b| - 1] == a + b[..|b| - 1];
    }
  }

  /** Updates are always justified, and add no removals. */
  lemma JustifiedUpdates<K, V>(
    lists: seq<seq<Entry<K, V>>>, cmp: (K, K) -> int, l: nat, pred: (K, V) -> bool, a: seq<Event<K, V>>, b: seq<Event<K, V>>)
    requires l < |lists| && Justified(lists, cmp, l, pred, a)
    requires forall i :: 0 <= i < |b| ==> b[i].Updated?
    ensures Justified(lists, cmp, l, pred, a + b)
  {
    forall i | 0 <= i < |a + b| && (a + b)[i].Removed?
      ensures pred((a + b)[i].key, (a + b)[i].val)
      ensures Entry((a + b)[i].key, (a + b)[i].val) in Replay(lists, cmp, l, (a + b)[..i])[l]
    {
      assert i < |a| && (a + b)[..i] == a[..i];
    }
  }

  lemma JustifiedRemoval<K, V>(
    lists: seq<seq<Entry<K, V>>>, cmp: (K, K) -> int, l: nat, pred: (K, V) -> bool, a: seq<Event<K, V>>, k: K, v: V)
    requires l < |lists| && Justified(lists, cmp, l, pred, a)
    requires pred(k, v) && Entry(k, v) in Replay(lists, cmp, l, a)[l]
    ensures Justified(lists, cmp, l, pred, a + [Removed(k, v)])
  {
    var log := a + [Removed(k, v)];
    forall i | 0 <= i < |log| && log[i].Removed?
      ensures pred(log[i].key, log[i].val) && Entry(log[i].key, log[i].val) in Replay(lists, cmp, l, log[..i])[l]
    {
      assert log[..i] == a[..i];
      assert i == |a| ==> a[..i] == a;
    }
  }

  /** Updates that keep the predicate for k keep k pending, wherever the cleaner is. */
  lemma {:induction false} UpdatesKeepPending<K(!new), V>(
    lists: seq<seq<Entry<K, V>>>, cmp: (K, K) -> int, l: nat, pred: (K, V) -> bool, log: seq<Event<K, V>>,
    after: Option<K>, k: K)
    requires IsOrder(cmp) && l < |lists| && (forall m :: 0 <= m < |lists| ==> Sorted(lists[m], cmp))
    requires forall i :: 0 <= i < |log| ==> log[i].Updated?
    requires Pending(lists[l], cmp, pred, after, k)
    requires forall i :: 0 <= i < |log| && log[i].call.list == l && log[i].call.key == k ==> pred(k, log[i].call.val)
    ensures forall m :: 0 <= m < |lists| ==> Sorted(Replay(lists, cmp, l, log)[m], cmp)
    ensures Pending(Replay(lists, cmp, l, log)[l], cmp, pred, after, k)
  {
    hide IsOrder, Sorted, ToMap, Put;
    if log != [] {
      var n := |log| - 1;
      UpdatesKeepPending(lists, cmp, l, pred, log[..n], after, k);
      var r, c := Replay(lists, cmp, l, log[..n]), log[n].call;
      if log[n].ok && c.list < |lists| {
        PutIsUpdate(r[c.list], cmp, c.key, c.val);
      }
    }
  }

  /** What the cleaner has not removed yet and must, it still has ahead of it. */
  ghost predicate Complete<K(!new), V>(
    lists: seq<seq<Entry<K, V>>>, cmp: (K, K) -> int, l: nat, pred: (K, V) -> bool, log: seq<Event<K, V>>,
    now: seq<Entry<K, V>>, after: Option<K>)
    requires l < |lists|
  {
    forall k :: Doomed(lists[l], l, pred, log, k) ==> WasRemoved(log, k) || Pending(now, cmp, pred, after, k)
  }

  lemma CompleteAtStart<K(!new), V>(
    lists: seq<seq<Entry<K, V>>>, cmp: (K, K) -> int, l: nat, pred: (K, V) -> bool)
    requires l < |lists|
    ensures Complete(lists, cmp, l, pred, [], lists[l], None)
  {
  }

  lemma CompleteAfterUpdates<K(!new), V>(
    lists: seq<seq<Entry<K, V>>>, cmp: (K, K) -> int, l: nat, pred: (K, V) -> bool, log: seq<Event<K, V>>,
    before: seq<seq<Entry<K, V>>>, more: seq<Event<K, V>>, after: Option<K>)
    requires IsOrder(cmp) && l < |lists| == |before| && (forall m :: 0 <= m < |before| ==> Sorted(before[m], cmp))
    requires Complete(lists, cmp, l, pred, log, before[l], after)
    requires forall i :: 0 <= i < |more| ==> more[i].Updated?
    ensures Complete(lists, cmp, l, pred, log + more, Replay(before, cmp, l, more)[l], after)
  {
    hide IsOrder, Sorted, ToMap, Replay;
    forall k | Doomed(lists[l], l, pred, log + more, k)
      ensures WasRemoved(log + more, k) || Pending(Replay(before, cmp, l, more)[l], cmp, pred, after, k)
    {
      assert Doomed(lists[l], l, pred, log, k) by {
        assert forall i :: 0 <= i < |log| ==> (log + more)[i] == log[i];
      }
      if WasRemoved(log, k) {
        var i :| 0 <= i < |log| && log[i].Removed? && log[i].key == k;
        assert (log + more)[i] == log[i];
      } else {
        assert forall i :: 0 <= i < |more| ==> (log + more)[|log| + i] == more[i];
        UpdatesKeepPending(before, cmp, l, pred, more, after, k);
      }
    }
  }

  lemma CompleteAfterRemoval<K(!new), V>(
    lists: seq<seq<Entry<K, V>>>, cmp: (K, K) -> int, l: nat, pred: (K, V) -> bool, log: seq<Event<K, V>>,
    s: seq<Entry<K, V>>, i: nat, after: Option<K>)
    requires IsOrder(cmp) && l < |lists| && Sorted(s, cmp) && i < |s|
    requires Complete(lists, cmp, l, pred, log, s, after)
    ensures Complete(lists, cmp, l, pred, log + [Removed(s[i].key, s[i].val)], Remove(s, i), after)
  {
    hide IsOrder, Sorted, ToMap;
    var log' := log + [Removed(s[i].key, s[i].val)];
    RemoveIsDelete(s, cmp, i);
    forall k | Doomed(lists[l], l, pred, log', k)
      ensures WasRemoved(log', k) || Pending(Remove(s, i), cmp, pred, after, k)
    {
      assert Doomed(lists[l], l, pred, log, k) by {
        assert forall j :: 0 <= j < |log| ==> log'[j] == log[j];
      }
      assert log'[|log|] == Removed(s[i].key, s[i].val);
      if WasRemoved(log, k) {
        var j :| 0 <= j < |log| && log[j].Removed? && log[j].key == k;
        assert log'[j] == log[j];
      }
    }
  }

  lemma NotAhead<K(!new), V>(s: seq<Entry<K, V>>, cmp: (K, K) -> int, i: nat, j: nat)
    requires IsOrder(cmp) && Sorted(s, cmp) && j <= i < |s|
    ensures cmp(s[i].key, s[j].key) <= 0
  {
    hide IsOrder;
    OrderFacts(cmp, s[i].key, s[j].key);
    OrderFacts(cmp, s[j].key, s[i].key);
  }

  /** The cleaner steps onto a node that does not satisfy the predicate: nothing it must remove is passed over. */
  lemma CompleteAfterStep<K(!new), V>(
    lists: seq<seq<Entry<K, V>>>, cmp: (K, K) -> int, l: nat, pred: (K, V) -> bool, log: seq<Event<K, V>>,
    s: seq<Entry<K, V>>, i: nat, after: Option<K>)
    requires IsOrder(cmp) && l < |lists| && Sorted(s, cmp) && i < |s|
    requires if after.None? then i == 0 else i > 0 && s[i - 1].key == after.value
    requires !pred(s[i].key, s[i].val)
    requires Complete(lists, cmp, l, pred, log, s, after)
    ensures Complete(lists, cmp, l, pred, log, s, Some(s[i].key))
  {
    hide IsOrder, ToMap;
    MapAt(s, cmp, i);
    MapKeys(s);
    forall k | Doomed(lists[l], l, pred, log, k) && !WasRemoved(log, k)
      ensures cmp(s[i].key, k) > 0
    {
      assert Pending(s, cmp, pred, after, k);
      var j :| 0 <= j < |s| && s[j].key == k;
      if j < i {
        NotAhead(s, cmp, i - 1, j);
      }
    }
  }

  /** At the end of the list nothing is left to remove. */
  lemma CompleteAtEnd<K(!new), V>(
    lists: seq<seq<Entry<K, V>>>, cmp: (K, K) -> int, l: nat, pred: (K, V) -> bool, log: seq<Event<K, V>>,
    s: seq<Entry<K, V>>, after: Option<K>)
    requires IsOrder(cmp) && l < |lists| && Sorted(s, cmp)
    requires if after.None? then s == [] else s != [] && s[|s| - 1].key == after.value
    requires Complete(lists, cmp, l, pred, log, s, after)
    ensures forall k :: Doomed(lists[l], l, pred, log, k) ==> WasRemoved(log, k)
  {
    hide IsOrder, ToMap;
    MapKeys(s);
    forall k | Doomed(lists[l], l, pred, log, k)
      ensures WasRemoved(log, k)
    {
      if !WasRemoved(log, k) {
        assert Pending(s, cmp, pred, after, k);
        var j :| 0 <= j < |s| && s[j].key == k;
        NotAhead(s, cmp, |s| - 1, j);
      }
    }
  }

  /** Where a cleanup of list l stands: the lists now, and what the history up to now means for it. */
  ghost predicate Tracked<K(!new), V>(
    start: seq<seq<Entry<K, V>>>, cmp: (K, K) -> int, l: nat, pred: (K, V) -> bool, log: seq<Event<K, V>>,
    now: seq<seq<Entry<K, V>>>, after: Option<K>)
  {
    && l < |start| && now == Replay(start, cmp, l, log)
    && Justified(start, cmp, l, pred, log)
    && Complete(start, cmp, l, pred, log, now[l], after)
  }

  lemma TrackedUpdates<K(!new), V>(
    start: seq<seq<Entry<K, V>>>, cmp: (K, K) -> int, l: nat, pred: (K, V) -> bool, log: seq<Event<K, V>>,
    now: seq<seq<Entry<K, V>>>, after: Option<K>, more: seq<Event<K, V>>)
    requires IsOrder(cmp) && (forall m :: 0 <= m < |now| ==> Sorted(now[m], cmp))
    requires Tracked(start, cmp, l, pred, log, now, after)
    requires forall i :: 0 <= i < |more| ==> more[i].Updated?
    ensures Tracked(start, cmp, l, pred, log + more, Replay(now, cmp, l, more), after)
  {
    hide IsOrder, Sorted, Justified, Complete, Replay;
    ReplayAppend(start, cmp, l, log, more);
    JustifiedUpdates(start, cmp, l, pred, log, more);
    CompleteAfterUpdates(start, cmp, l, pred, log, now, more, after);
  }

  lemma TrackedRemoval<K(!new), V>(
    start: seq<seq<Entry<K, V>>>, cmp: (K, K) -> int, l: nat, pred: (K, V) -> bool, log: seq<Event<K, V>>,
    now: seq<seq<Entry<K, V>>>, after: Option<K>, i: nat)
    requires IsOrder(cmp) && l < |now| && Sorted(now[l], cmp) && i < |now[l]| && pred(now[l][i].key, now[l][i].val)
    requires Tracked(start, cmp, l, pred, log, now, after)
    ensures Tracked(start, cmp, l, pred, log + [Removed(now[l][i].key, now[l][i].val)], now[l := Remove(now[l], i)], after)
  {
    hide IsOrder, Sorted, Justified, Complete;
    var e: Event<K, V> := Removed(now[l][i].key, now[l][i].val);
    assert (log + [e])[..|log|] == log;
    DeleteIsRemove(now[l], cmp, i);
    JustifiedRemoval(start, cmp, l, pred, log, now[l][i].key, now[l][i].val);
    CompleteAfterRemoval(start, cmp, l, pred, log, now[l], i, after);
  }

  lemma TrackedStep<K(!new), V>(
    start: seq<seq<Entry<K, V>>>, cmp: (K, K) -> int, l: nat, pred: (K, V) -> bool, log: seq<Event<K, V>>,
    now: seq<seq<Entry<K, V>>>, after: Option<K>, i: nat)
    requires IsOrder(cmp) && l < |now| && Sorted(now[l], cmp) && i < |now[l]| && !pred(now[l][i].key, now[l][i].val)
    requires if after.None? then i == 0 else i > 0 && now[l][i - 1].key == after.value
    requires Tracked(start, cmp, l, pred, log, now, after)
    ensures Tracked(start, cmp, l, pred, log, now, Some(now[l][i].key))
  {
    hide IsOrder, Sorted, Justified, Complete, Replay;
    CompleteAfterStep(start, cmp, l, pred, log, now[l], i, after);
  }

  lemma TrackedAtStart<K(!new), V>(
    start: seq<seq<Entry<K, V>>>, cmp: (K, K) -> int, l: nat, pred: (K, V) -> bool, env: seq<seq<Call<K, V>>>)
    requires l < |start|
    ensures Calls<K, V>([]) == Flatten(env, 0) && Removals<K, V>([]) == 0
    ensures Tracked(start, cmp, l, pred, [], start, None)
  {
    CompleteAtStart(start, cmp, l, pred);
  }

  lemma TrackedAtEnd<K(!new), V>(
    start: seq<seq<Entry<K, V>>>, cmp: (K, K) -> int, l: nat, pred: (K, V) -> bool, log: seq<Event<K, V>>,
    now: seq<seq<Entry<K, V>>>, after: Option<K>)
    requires IsOrder(cmp) && l < |now| && Sorted(now[l], cmp)
    requires if after.None? then now[l] == [] else now[l] != [] && now[l][|now[l]| - 1].key == after.value
    requires Tracked(start, cmp, l, pred, log, now, after)
    ensures now == Replay(start, cmp, l, log) && l < |start| && Justified(start, cmp, l, pred, log)
    ensures forall k :: Doomed(start[l], l, pred, log, k) ==> WasRemoved(log, k)
  {
    hide IsOrder, Sorted, Replay;
    CompleteAtEnd(start, cmp, l, pred, log, now[l], after);
  }

  lemma {:induction false} NoCalls<K, V>(log: seq<Event<K, V>>)
    requires Calls(log) == []
    ensures forall i :: 0 <= i < |log| ==> log[i].Removed?
  {
    if log != [] {
      NoCalls(log[..|log| - 1]);
    }
  }

  /** After removals alone: s is what is left of list s0, and each of the removed satisfied the predicate from the start. */
  ghost predicate LeftOf<K(!new), V>(
    s0: seq<Entry<K, V>>, s: seq<Entry<K, V>>, pred: (K, V) -> bool, log: seq<Event<K, V>>)
  {
    && |s| + Removals(log) == |s0|
    && (forall k :: k in ToMap(s) <==> k in ToMap(s0) && !WasRemoved(log, k))
    && (forall k :: k in ToMap(s) ==> ToMap(s)[k] == ToMap(s0)[k])
    && (forall k :: WasRemoved(log, k) ==> k in ToMap(s0) && pred(k, ToMap(s0)[k]))
  }

  lemma LeftOfRemoval<K(!new), V>(
    cmp: (K, K) -> int, s0: seq<Entry<K, V>>, s: seq<Entry<K, V>>, pred: (K, V) -> bool, log: seq<Event<K, V>>, i: nat)
    requires IsOrder(cmp) && Sorted(s, cmp) && i < |s| && pred(s[i].key, s[i].val) && LeftOf(s0, s, pred, log)
    ensures LeftOf(s0, Remove(s, i), pred, log + [Removed(s[i].key, s[i].val)])
  {
    hide IsOrder, Sorted, ToMap, WasRemoved;
    var e: Event<K, V> := Removed(s[i].key, s[i].val);
    RemoveIsDelete(s, cmp, i);
    MapAt(s, cmp, i);
    assert (log + [e])[..|log|] == log;
    forall k
      ensures WasRemoved(log + [e], k) <==> WasRemoved(log, k) || k == e.key
    {
      RemovedMore(log, e, k);
    }
  }

  lemma JustifiedPrefix<K, V>(
    lists: seq<seq<Entry<K, V>>>, cmp: (K, K) -> int, l: nat, pred: (K, V) -> bool, a: seq<Event<K, V>>, e: Event<K, V>)
    requires l < |lists| && Justified(lists, cmp, l, pred, a + [e])
    ensures Justified(lists, cmp, l, pred, a)
    ensures e.Removed? ==> pred(e.key, e.val) && Entry(e.key, e.val) in Replay(lists, cmp, l, a)[l]
  {
    hide Replay;
    var log := a + [e];
    forall i | 0 <= i < |log| && log[i].Removed?
      ensures pred(log[i].key, log[i].val) && Entry(log[i].key, log[i].val) in Replay(lists, cmp, l, log[..i])[l]
    {
    }
    forall i | 0 <= i < |a| && a[i].Removed?
      ensures pred(a[i].key, a[i].val) && Entry(a[i].key, a[i].val) in Replay(lists, cmp, l, a[..i])[l]
    {
      assert log[i] == a[i] && log[..i] == a[..i];
    }
    assert log[|a|] == e && log[..|a|] == a;
  }

  lemma {:induction false} RemovalsAlone<K(!new), V>(
    start: seq<seq<Entry<K, V>>>, cmp: (K, K) -> int, l: nat, pred: (K, V) -> bool, log: seq<Event<K, V>>)
    requires IsOrder(cmp) && l < |start| && Sorted(start[l], cmp)
    requires Justified(start, cmp, l, pred, log) && forall i :: 0 <= i < |log| ==> log[i].Removed?
    ensures var now := Replay(start, cmp, l, log);
      now == start[l := now[l]] && Sorted(now[l], cmp) && LeftOf(start[l], now[l], pred, log)
  {
    hide IsOrder, Sorted, ToMap, Justified;
    if log == [] {
      assert forall k :: !WasRemoved(log, k);
    } else {
      hide LeftOf;
      var n := |log| - 1;
      var log', e := log[..n], log[n];
      assert log == log' + [e];
      JustifiedPrefix(start, cmp, l, pred, log', e);
      RemovalsAlone(start, cmp, l, pred, log');
      var s := Replay(start, cmp, l, log')[l];
      var i :| 0 <= i < |s| && s[i] == Entry(e.key, e.val);
      DeleteIsRemove(s, cmp, i);
      RemoveIsDelete(s, cmp, i);
      LeftOfRemoval(cmp, start[l], s, pred, log', i);
    }
  }

  lemma RemovedMore<K, V>(log: seq<Event<K, V>>, e: Event<K, V>, k: K)
    requires e.Removed?
    ensures WasRemoved(log + [e], k) <==> WasRemoved(log, k) || k == e.key
  {
    var log' := log + [e];
    assert log'[|log|] == e;
    if WasRemoved(log, k) {
      var i :| 0 <= i < |log| && log[i].Removed? && log[i].key == k;
      assert log'[i] == log[i];
    }
    if WasRemoved(log', k) {
      var i :| 0 <= i < |log'| && log'[i].Removed? && log'[i].key == k;
      assert i < |log| ==> log[i] == log'[i];
    }
  }

  /** A cleanup nobody interferes with removes exactly the nodes that satisfy the predicate. */
  lemma CleanedAlone<K(!new), V>(
    start: seq<seq<Entry<K, V>>>, cmp: (K, K) -> int, l: nat, pred: (K, V) -> bool, log: seq<Event<K, V>>)
    requires IsOrder(cmp) && l < |start| && Sorted(start[l], cmp)
    requires Justified(start, cmp, l, pred, log) && Calls(log) == []
    requires forall k :: Doomed(start[l], l, pred, log, k) ==> WasRemoved(log, k)
    ensures var now := Replay(start, cmp, l, log);
      && now == start[l := now[l]] && |now[l]| + Removals(log) == |start[l]|
      && ToMap(now[l]) == map k | k in ToMap(start[l]) && !pred(k, ToMap(start[l])[k]) :: ToMap(start[l])[k]
  {
    hide IsOrder, Sorted, ToMap, Replay, Justified;
    NoCalls(log);
    RemovalsAlone(start, cmp, l, pred, log);
    assert forall k :: k in ToMap(start[l]) && pred(k, ToMap(start[l])[k]) ==> Doomed(start[l], l, pred, log, k);
  }

  lemma {:induction false} NothingCalled<K, V>(n: nat)
    ensures Flatten<K, V>([], n) == []
  {
    if n > 0 {
      NothingCalled<K, V>(n - 1);
    }
  }
}
