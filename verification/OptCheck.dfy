/** The duplicate-key check of src/opt_check.c: a bit set of short keys and a sorted list of long names. */
module OptCheck {
  import opened TextOrder
  import opened SortedList
  import opened ListManager
  import opened Options

  /** isgraph in the C locale */
  predicate IsGraph(c: int) {
    33 <= c <= 126
  }

  /** isValid: graphic, and none of '-', ':', ';', '+', 'W'. */
  predicate IsValid(c: int) {
    IsGraph(c) && c != 45 && c != 58 && c != 59 && c != 43 && c != 87
  }

  predicate Distinct<T(==)>(s: seq<T>) {
    forall i, j :: 0 <= i < j < |s| ==> s[i] != s[j]
  }

  lemma DistinctMore<T>(s: seq<T>, x: T)
    ensures Distinct(s + [x]) <==> Distinct(s) && x !in s
  {
    var t := s + [x];
    assert t[|s|] == x && forall i :: 0 <= i < |s| ==> t[i] == s[i];
    if Distinct(t) {
      forall i, j | 0 <= i < j < |s|
        ensures s[i] != s[j]
      {
        assert t[i] != t[j];
      }
    }
  }

  // What the check looks for.

  /** The valid characters of the pre-options. */
  function PreKeys(pre: Text): seq<int> {
    if pre == [] then []
    else
      var n := |pre| - 1;
      PreKeys(pre[..n]) + if IsValid(pre[n]) then [pre[n]] else []
  }

  /** The short keys of the records; no more than 0 is none. */
  function ShortKeys(recs: seq<OptRec>): seq<int> {
    if recs == [] then []
    else
      var n := |recs| - 1;
      ShortKeys(recs[..n]) + if recs[n].sKey > 0 then [recs[n].sKey] else []
  }

  /** The names that are not empty. */
  function Names(names: seq<Text>): seq<Text> {
    if names == [] then []
    else
      var n := |names| - 1;
      Names(names[..n]) + if names[n] == [] then [] else [names[n]]
  }

  function Keys(recs: seq<OptRec>): seq<Text> {
    seq(|recs|, k requires 0 <= k < |recs| => recs[k].key)
  }

  /** No option is in doubt. */
  predicate Unambiguous(pre: Text, more: seq<Text>, recs: seq<OptRec>) {
    && (forall k :: 0 <= k < |pre| ==> IsGraph(pre[k]))
    && (forall k :: 0 <= k < |recs| && recs[k].sKey > 0 ==> IsValid(recs[k].sKey))
    && Distinct(PreKeys(pre) + ShortKeys(recs))
    && Distinct(Names(more) + Names(Keys(recs)))
  }

  predicate Apart<T(==)>(a: seq<T>, b: seq<T>) {
    forall x <- a :: x !in b
  }

  lemma InBoth<T>(a: seq<T>, b: seq<T>) returns (x: T)
    requires !Apart(a, b)
    ensures x in a && x in b
  {
    x :| x in a && x in b;
  }

  lemma DistinctJoin<T>(a: seq<T>, b: seq<T>)
    ensures Distinct(a + b) <==> Distinct(a) && Distinct(b) && Apart(a, b)
  {
    if b == [] {
      assert a + b == a;
    } else {
      var n := |b| - 1;
      DistinctJoin(a, b[..n]);
      DistinctMore(a + b[..n], b[n]);
      DistinctMore(b[..n], b[n]);
      assert a + b == a + b[..n] + [b[n]] && b == b[..n] + [b[n]];
    }
  }

  /** What is wanted comes once. */
  predicate Once<T(==)>(s: seq<T>, wanted: T -> bool) {
    forall i, j :: 0 <= i < j < |s| && wanted(s[i]) ==> s[i] != s[j]
  }

  lemma OnceMore<T>(s: seq<T>, x: T, wanted: T -> bool)
    ensures Once(s + [x], wanted) <==> Once(s, wanted) && (wanted(x) ==> x !in s)
  {
    var t := s + [x];
    assert t[|s|] == x && forall i :: 0 <= i < |s| ==> t[i] == s[i];
    if Once(t, wanted) {
      forall i, j | 0 <= i < j < |s| && wanted(s[i])
        ensures s[i] != s[j]
      {
        assert t[i] != t[j];
      }
      forall i | 0 <= i < |s| && wanted(x)
        ensures s[i] != x
      {
        assert wanted(t[i]) ==> t[i] != t[|s|];
      }
    }
  }

  lemma {:induction false} PreKeysAre(pre: Text, wanted: int -> bool)
    requires forall c :: wanted(c) <==> IsValid(c)
    ensures forall x :: x in PreKeys(pre) <==> x in pre && IsValid(x)
    ensures Distinct(PreKeys(pre)) <==> Once<int>(pre, wanted)
  {
    hide Distinct, Once, IsValid;
    if pre == [] {
      NothingTwice(wanted);
    } else {
      var n := |pre| - 1;
      PreKeysAre(pre[..n], wanted);
      DistinctMore(PreKeys(pre[..n]), pre[n]);
      OnceMore<int>(pre[..n], pre[n], wanted);
      assert pre == pre[..n] + [pre[n]] && PreKeys(pre[..n]) + [] == PreKeys(pre[..n]);
    }
  }

  lemma NothingTwice<T>(wanted: T -> bool)
    ensures Distinct<T>([]) && Once<T>([], wanted)
  {
  }

  function SKeys(recs: seq<OptRec>): seq<int> {
    seq(|recs|, k requires 0 <= k < |recs| => recs[k].sKey)
  }

  lemma {:induction false} ShortKeysAre(recs: seq<OptRec>, wanted: int -> bool)
    requires forall c :: wanted(c) <==> c > 0
    ensures forall x :: x in ShortKeys(recs) <==> x in SKeys(recs) && x > 0
    ensures Distinct(ShortKeys(recs)) <==> Once<int>(SKeys(recs), wanted)
  {
    hide Distinct, Once;
    if recs == [] {
      NothingTwice(wanted);
    } else {
      var n := |recs| - 1;
      ShortKeysAre(recs[..n], wanted);
      DistinctMore(ShortKeys(recs[..n]), recs[n].sKey);
      OnceMore<int>(SKeys(recs[..n]), recs[n].sKey, wanted);
      assert SKeys(recs) == SKeys(recs[..n]) + [recs[n].sKey] && ShortKeys(recs[..n]) + [] == ShortKeys(recs[..n]);
    }
  }

  lemma {:induction false} NamesAre(names: seq<Text>, wanted: Text -> bool)
    requires forall k :: wanted(k) <==> k != []
    ensures forall x :: x in Names(names) <==> x in names && x != []
    ensures Distinct(Names(names)) <==> Once(names, wanted)
  {
    hide Distinct, Once;
    if names == [] {
      NothingTwice(wanted);
    } else {
      var n := |names| - 1;
      NamesAre(names[..n], wanted);
      DistinctMore(Names(names[..n]), names[n]);
      OnceMore(names[..n], names[n], wanted);
      assert names == names[..n] + [names[n]] && Names(names[..n]) + [] == Names(names[..n]);
    }
  }

  /**
   What is in doubt, option by option: a pre-option outside 33 to 126 or one
   that comes twice, - : ; + and W apart; a short key outside 33 to 126, one
   of these five, or one that comes twice; a long name that comes twice.
   */
  lemma UnambiguousIs(pre: Text, more: seq<Text>, recs: seq<OptRec>)
    ensures Unambiguous(pre, more, recs) <==>
      && (forall k :: 0 <= k < |pre| ==> 33 <= pre[k] <= 126)
      && (forall k :: 0 <= k < |recs| && recs[k].sKey > 0 ==>
            33 <= recs[k].sKey <= 126 && recs[k].sKey !in {45, 58, 59, 43, 87})
      && (forall i, j :: 0 <= i < j < |pre| ==> pre[i] != pre[j] || pre[i] in {45, 58, 59, 43, 87})
      && (forall i, j :: 0 <= i < j < |recs| && recs[i].sKey > 0 ==> recs[i].sKey != recs[j].sKey)
      && (forall i, j :: 0 <= i < |pre| && 0 <= j < |recs| && recs[j].sKey > 0 ==> pre[i] != recs[j].sKey)
      && (forall i, j :: 0 <= i < j < |more| && more[i] != [] ==> more[i] != more[j])
      && (forall i, j :: 0 <= i < j < |recs| && recs[i].key != [] ==> recs[i].key != recs[j].key)
      && (forall i, j :: 0 <= i < |more| && 0 <= j < |recs| && more[i] != [] ==> more[i] != recs[j].key)
  {
    hide Distinct, Apart, PreKeys, ShortKeys, Names;
    DistinctJoin(PreKeys(pre), ShortKeys(recs));
    DistinctJoin(Names(more), Names(Keys(recs)));
    if forall k :: 0 <= k < |pre| ==> IsGraph(pre[k]) {
      PreKeysOnce(pre);
    }
    ShortKeysOnce(recs);
    NamesOnce(more);
    LongKeysOnce(recs);
    if forall k :: 0 <= k < |recs| && recs[k].sKey > 0 ==> IsValid(recs[k].sKey) {
      KeysApart(pre, recs);
    }
    NamesApart(more, recs);
  }

  lemma PreKeysOnce(pre: Text)
    requires forall k :: 0 <= k < |pre| ==> 33 <= pre[k] <= 126
    ensures Distinct(PreKeys(pre))
      <==> forall i, j :: 0 <= i < j < |pre| ==> pre[i] != pre[j] || pre[i] in {45, 58, 59, 43, 87}
  {
    hide Distinct, PreKeys;
    PreKeysAre(pre, IsValid);
  }

  lemma ShortKeysOnce(recs: seq<OptRec>)
    ensures Distinct(ShortKeys(recs))
      <==> forall i, j :: 0 <= i < j < |recs| && recs[i].sKey > 0 ==> recs[i].sKey != recs[j].sKey
  {
    hide Distinct, ShortKeys;
    ShortKeysAre(recs, c => c > 0);
    if Distinct(ShortKeys(recs)) {
      forall i, j | 0 <= i < j < |recs| && recs[i].sKey > 0
        ensures recs[i].sKey != recs[j].sKey
      {
        assert SKeys(recs)[i] != SKeys(recs)[j];
      }
    }
  }

  lemma NamesOnce(names: seq<Text>)
    ensures Distinct(Names(names)) <==> forall i, j :: 0 <= i < j < |names| && names[i] != [] ==> names[i] != names[j]
  {
    hide Distinct, Names;
    NamesAre(names, k => k != []);
  }

  lemma LongKeysOnce(recs: seq<OptRec>)
    ensures Distinct(Names(Keys(recs)))
      <==> forall i, j :: 0 <= i < j < |recs| && recs[i].key != [] ==> recs[i].key != recs[j].key
  {
    hide Distinct, Names;
    NamesOnce(Keys(recs));
    if Distinct(Names(Keys(recs))) {
      forall i, j | 0 <= i < j < |recs| && recs[i].key != []
        ensures recs[i].key != recs[j].key
      {
        assert Keys(recs)[i] != Keys(recs)[j];
      }
    }
  }

  /** The same character as a pre-option and as a valid short key is among both kinds of keys. */
  lemma InBothKeys(pre: Text, recs: seq<OptRec>, i: nat, j: nat)
    requires i < |pre| && j < |recs| && recs[j].sKey > 0 && IsValid(recs[j].sKey) && pre[i] == recs[j].sKey
    ensures !Apart(PreKeys(pre), ShortKeys(recs))
  {
    hide PreKeys, ShortKeys, Distinct, IsValid, Once;
    PreKeysAre(pre, IsValid);
    ShortKeysAre(recs, c => c > 0);
    assert SKeys(recs)[j] == recs[j].sKey;
    var x: int := recs[j].sKey;
    assert pre[i] in pre && x in PreKeys(pre) && x in ShortKeys(recs);
  }

  lemma FoundInBoth(pre: Text, recs: seq<OptRec>) returns (i: nat, j: nat)
    requires !Apart(PreKeys(pre), ShortKeys(recs))
    ensures i < |pre| && j < |recs| && recs[j].sKey > 0 && pre[i] == recs[j].sKey
  {
    hide PreKeys, ShortKeys, Distinct, IsValid, Once;
    PreKeysAre(pre, IsValid);
    ShortKeysAre(recs, c => c > 0);
    var p: seq<int> := pre;
    var x := InBoth<int>(PreKeys(pre), ShortKeys(recs));
    assert x in p;
    i :| 0 <= i < |p| && p[i] == x;
    j :| 0 <= j < |recs| && SKeys(recs)[j] == x;
  }

  /** No character is a pre-option and a valid short key. */
  lemma KeysApart(pre: Text, recs: seq<OptRec>)
    requires forall k :: 0 <= k < |recs| && recs[k].sKey > 0 ==> IsValid(recs[k].sKey)
    ensures Apart(PreKeys(pre), ShortKeys(recs))
      <==> forall i, j :: 0 <= i < |pre| && 0 <= j < |recs| && recs[j].sKey > 0 ==> pre[i] != recs[j].sKey
  {
    hide PreKeys, ShortKeys, IsValid, Apart;
    if Apart(PreKeys(pre), ShortKeys(recs)) {
      forall i, j | 0 <= i < |pre| && 0 <= j < |recs| && recs[j].sKey > 0
        ensures pre[i] != recs[j].sKey
      {
        if pre[i] == recs[j].sKey {
          InBothKeys(pre, recs, i, j);
        }
      }
    } else {
      var i, j := FoundInBoth(pre, recs);
    }
  }

  lemma NamesApart(more: seq<Text>, recs: seq<OptRec>)
    ensures Apart(Names(more), Names(Keys(recs)))
      <==> forall i, j :: 0 <= i < |more| && 0 <= j < |recs| && more[i] != [] ==> more[i] != recs[j].key
  {
    hide Names, Distinct, Once;
    NamesAre(more, k => k != []);
    NamesAre(Keys(recs), k => k != []);
    if Apart(Names(more), Names(Keys(recs))) {
      forall i, j | 0 <= i < |more| && 0 <= j < |recs| && more[i] != []
        ensures more[i] != recs[j].key
      {
        assert more[i] in Names(more) && Keys(recs)[j] == recs[j].key;
      }
    } else {
      var x := InBoth(Names(more), Names(Keys(recs)));
      var i :| 0 <= i < |more| && more[i] == x;
      var j :| 0 <= j < |recs| && Keys(recs)[j] == x;
      assert more[i] == recs[j].key != [];
    }
  }

  // The bit set.

  /** 1 << rem */
  function Mask(rem: nat): bv8
    requires rem < 8
  {
    if rem == 0 then 0x01 else if rem == 1 then 0x02 else if rem == 2 then 0x04 else if rem == 3 then 0x08
    else if rem == 4 then 0x10 else if rem == 5 then 0x20 else if rem == 6 then 0x40 else 0x80
  }

  lemma MaskIs(rem: nat)
    requires rem < 8
    ensures Mask(rem) == 1 << rem
  {
  }

  predicate BitSet(x: bv8, rem: nat)
    requires rem < 8
  {
    x & Mask(rem) > 0
  }

  lemma SetBit(x: bv8, rem: nat, other: nat)
    requires rem < 8 && other < 8
    ensures BitSet(x | Mask(rem), other) <==> BitSet(x, other) || other == rem
    ensures !BitSet(0, other)
  {
  }

  /** The characters of which the 32 octets of x have the bit. */
  ghost predicate Holds(x: seq<bv8>, seen: seq<int>) {
    |x| == 32 && forall c: int :: 0 <= c < 256 ==> (BitSet(x[c / 8], c % 8) <==> c in seen)
  }

  /** Tests the bit of c and sets it. */
  method TestAndSet(x: array<bv8>, c: int, ghost seen: seq<int>) returns (isNew: bool)
    requires x.Length == 32 && 0 <= c < 256 && Holds(x[..], seen)
    modifies x
    ensures isNew == (c !in seen) && (isNew ==> Holds(x[..], seen + [c]))
  {
    hide Holds, Mask;
    var quot, rem := c / 8, c % 8;
    var m := Mask(rem);
    HeldBit(x[..], c, seen);
    if x[quot] & m > 0 {
      return false;
    }
    ghost var was := x[..];
    x[quot] := x[quot] | m;
    assert x[..] == was[quot := was[quot] | m];
    HoldsMore(was, c, seen);
    return true;
  }

  lemma HeldBit(x: seq<bv8>, c: int, seen: seq<int>)
    requires 0 <= c < 256 && Holds(x, seen)
    ensures |x| == 32 && (x[c / 8] & Mask(c % 8) > 0 <==> c in seen)
  {
    hide Mask;
    assert BitSet(x[c / 8], c % 8) <==> c in seen;
  }

  lemma HoldsMore(x: seq<bv8>, c: int, seen: seq<int>)
    requires 0 <= c < 256 && Holds(x, seen)
    ensures Holds(x[c / 8 := x[c / 8] | Mask(c % 8)], seen + [c])
  {
    hide BitSet;
    var y := x[c / 8 := x[c / 8] | Mask(c % 8)];
    forall d: int | 0 <= d < 256
      ensures BitSet(y[d / 8], d % 8) <==> d in seen + [c]
    {
      SetBit(x[c / 8], c % 8, d % 8);
      assert d == c <==> d / 8 == c / 8 && d % 8 == c % 8;
    }
  }

  // Prefixes.

  lemma DistinctPrefix<T>(a: seq<T>, b: seq<T>)
    requires a <= b && Distinct(b)
    ensures Distinct(a)
  {
    assert forall i :: 0 <= i < |a| ==> a[i] == b[i];
  }

  lemma {:induction false} PreKeysPrefix(pre: Text, k: nat)
    requires k <= |pre|
    ensures PreKeys(pre[..k]) <= PreKeys(pre)
  {
    if k < |pre| {
      PreKeysPrefix(pre[..|pre| - 1], k);
      assert pre[..|pre| - 1][..k] == pre[..k];
    } else {
      assert pre[..k] == pre;
    }
  }

  lemma {:induction false} ShortKeysPrefix(recs: seq<OptRec>, k: nat)
    requires k <= |recs|
    ensures ShortKeys(recs[..k]) <= ShortKeys(recs)
  {
    if k < |recs| {
      ShortKeysPrefix(recs[..|recs| - 1], k);
      assert recs[..|recs| - 1][..k] == recs[..k];
    } else {
      assert recs[..k] == recs;
    }
  }

  lemma {:induction false} NamesPrefix(names: seq<Text>, k: nat)
    requires k <= |names|
    ensures Names(names[..k]) <= Names(names)
  {
    if k < |names| {
      NamesPrefix(names[..|names| - 1], k);
      assert names[..|names| - 1][..k] == names[..k];
    } else {
      assert names[..k] == names;
    }
  }

  // The three passes.

  /** The pre-options. */
  method CheckPre(x: array<bv8>, pre: Text) returns (ok: bool)
    requires x.Length == 32 && Holds(x[..], [])
    modifies x
    ensures ok <==> (forall k :: 0 <= k < |pre| ==> IsGraph(pre[k])) && Distinct(PreKeys(pre))
    ensures ok ==> Holds(x[..], PreKeys(pre))
  {
    hide Holds, Distinct, IsGraph, IsValid, PreKeys;
    EmptyDistinct<int>();
    NoPreKeys(pre);
    for i := 0 to |pre|
      invariant Holds(x[..], PreKeys(pre[..i])) && Distinct(PreKeys(pre[..i]))
      invariant forall k :: 0 <= k < i ==> IsGraph(pre[k])
    {
      var c: int := pre[i];
      if !IsGraph(c) {
        return false;
      }
      PreKeysMore(pre, i);
      if IsValid(c) {
        DistinctMore(PreKeys(pre[..i]), c);
        var isNew := TestAndSet(x, c, PreKeys(pre[..i]));
        if !isNew {
          return false;
        }
      }
    }
    assert pre[..|pre|] == pre;
    return true;
  }

  lemma EmptyDistinct<T>()
    ensures Distinct<T>([])
  {
  }

  lemma NoPreKeys(pre: Text)
    ensures PreKeys(pre[..0]) == []
  {
  }

  lemma PreKeysMore(pre: Text, n: nat)
    requires n < |pre|
    ensures PreKeys(pre[..n + 1]) == if IsValid(pre[n]) then PreKeys(pre[..n]) + [pre[n]] else PreKeys(pre[..n])
    ensures Distinct(PreKeys(pre)) ==> Distinct(PreKeys(pre[..n + 1]))
  {
    hide Distinct;
    assert pre[..n + 1][..n] == pre[..n];
    PreKeysPrefix(pre, n + 1);
    if Distinct(PreKeys(pre)) {
      DistinctPrefix(PreKeys(pre[..n + 1]), PreKeys(pre));
    }
  }

  /** The short keys seen before record n. */
  ghost function ShortSeen(seen: seq<int>, recs: seq<OptRec>, n: nat): seq<int>
    requires n <= |recs|
  {
    seen + ShortKeys(recs[..n])
  }

  lemma ShortSeenEnds(seen: seq<int>, recs: seq<OptRec>)
    ensures ShortSeen(seen, recs, 0) == seen && ShortSeen(seen, recs, |recs|) == seen + ShortKeys(recs)
  {
    assert recs[..0] == [] && recs[..|recs|] == recs;
  }

  lemma ShortSeenMore(seen: seq<int>, recs: seq<OptRec>, n: nat)
    requires n < |recs|
    ensures ShortSeen(seen, recs, n + 1)
      == if recs[n].sKey > 0 then ShortSeen(seen, recs, n) + [recs[n].sKey] else ShortSeen(seen, recs, n)
    ensures Distinct(ShortSeen(seen, recs, |recs|)) ==> Distinct(ShortSeen(seen, recs, n + 1))
  {
    hide Distinct;
    assert recs[..n + 1][..n] == recs[..n] && recs[..|recs|] == recs;
    ShortKeysPrefix(recs, n + 1);
    assert ShortSeen(seen, recs, n + 1) <= ShortSeen(seen, recs, |recs|);
    if Distinct(ShortSeen(seen, recs, |recs|)) {
      DistinctPrefix(ShortSeen(seen, recs, n + 1), ShortSeen(seen, recs, |recs|));
    }
  }

  /** The short keys, on the bits the pre-options left. */
  method CheckShort(x: array<bv8>, chain: Chain<OptRec>, ghost seen: seq<int>) returns (ok: bool)
    requires x.Length == 32 && Holds(x[..], seen) && Distinct(seen) && chain != []
    modifies x
    ensures var recs := Records(chain);
      ok <==> (forall k :: 0 <= k < |recs| && recs[k].sKey > 0 ==> IsValid(recs[k].sKey)) && Distinct(seen + ShortKeys(recs))
  {
    hide Holds, Distinct, ShortSeen, ShortKeys, IsValid, Position, Records;
    ghost var recs := Records(chain);
    var c: nat, i: nat := 0, 0;
    ghost var n := 0;
    NextRecVisits(chain, 0, 0);
    ShortSeenEnds(seen, recs);
    while true
      invariant c < |chain| && i < |chain[c]| && n == Position(chain, c, i) < |recs|
      invariant Holds(x[..], ShortSeen(seen, recs, n)) && Distinct(ShortSeen(seen, recs, n))
      invariant forall k :: 0 <= k < n && recs[k].sKey > 0 ==> IsValid(recs[k].sKey)
      decreases |recs| - n
    {
      NextRecVisits(chain, c, i);
      ShortSeenMore(seen, recs, n);
      var a := chain[c][i];
      if a.sKey > 0 {
        if !IsValid(a.sKey) {
          return false;
        }
        DistinctMore(ShortSeen(seen, recs, n), a.sKey);
        var isNew := TestAndSet(x, a.sKey, ShortSeen(seen, recs, n));
        if !isNew {
          return false;
        }
      }
      var next := NextRec(chain, c, i);
      if next.None? {
        return true;
      }
      n := n + 1;
      c, i := next.value.0, next.value.1;
      NextRecVisits(chain, c, i);
    }
  }

  // The long names.

  /** The names on the one list of the manager. */
  ghost function Listed(m: Manager<Text, ()>): set<Text>
    requires |m.view| == 1
    reads m
  {
    ToMap(m.view[0]).Keys
  }

  /** fetchNode and, for a new name, updateNode. */
  method AddName(m: Manager<Text, ()>, name: Text, ghost seen: seq<Text>) returns (isNew: bool)
    requires m.Valid() && |m.view| == 1 && Listed(m) == Elements(seen)
    modifies m, m.heads, m.nodes
    ensures m.Valid() && |m.view| == 1 && fresh(m.nodes - old(m.nodes))
    ensures isNew == (name == [] || name !in seen)
    ensures isNew ==> Listed(m) == Elements(if name == [] then seen else seen + [name])
  {
    hide ToMap, Put, Find, Sorted, IsOrder, Manager.Valid, Manager.NodesStay;
    if name == [] {
      return true;
    }
    m.ListFacts(0);
    FindIsLookup(m.view[0], m.cmp, name);
    PutIsUpdate(m.view[0], m.cmp, name, ());
    var n, _ := m.FetchNode(0, name);
    if n != null {
      return false;
    }
    var _ := m.UpdateNode(0, name, (), true);
    return true;
  }

  ghost function Elements(s: seq<Text>): set<Text> {
    set x | x in s
  }

  /** The names seen before name n. */
  ghost function NamesSeen(seen: seq<Text>, names: seq<Text>, n: nat): seq<Text>
    requires n <= |names|
  {
    seen + Names(names[..n])
  }

  lemma NamesSeenEnds(seen: seq<Text>, names: seq<Text>)
    ensures NamesSeen(seen, names, 0) == seen && NamesSeen(seen, names, |names|) == seen + Names(names)
  {
    assert names[..0] == [] && names[..|names|] == names;
  }

  lemma NamesSeenMore(seen: seq<Text>, names: seq<Text>, n: nat)
    requires n < |names|
    ensures NamesSeen(seen, names, n + 1)
      == if names[n] == [] then NamesSeen(seen, names, n) else NamesSeen(seen, names, n) + [names[n]]
    ensures Distinct(NamesSeen(seen, names, |names|)) ==> Distinct(NamesSeen(seen, names, n + 1))
  {
    hide Distinct;
    assert names[..n + 1][..n] == names[..n] && names[..|names|] == names;
    NamesPrefix(names, n + 1);
    assert NamesSeen(seen, names, n + 1) <= NamesSeen(seen, names, |names|);
    if Distinct(NamesSeen(seen, names, |names|)) {
      DistinctPrefix(NamesSeen(seen, names, n + 1), NamesSeen(seen, names, |names|));
    }
  }

  /** The additional long options. */
  method CheckMore(m: Manager<Text, ()>, more: seq<Text>) returns (ok: bool)
    requires m.Valid() && |m.view| == 1 && Listed(m) == {}
    modifies m, m.heads, m.nodes
    ensures m.Valid() && |m.view| == 1 && fresh(m.nodes - old(m.nodes))
    ensures ok <==> Distinct(Names(more))
    ensures ok ==> Listed(m) == Elements(Names(more))
  {
    hide Distinct, ToMap, Manager.Valid, NamesSeen, Names, Elements;
    EmptyDistinct<Text>();
    NamesSeenEnds([], more);
    assert [] + Names(more) == Names(more);
    NothingIn();
    for j := 0 to |more|
      invariant m.Valid() && |m.view| == 1 && fresh(m.nodes - old(m.nodes))
      invariant Listed(m) == Elements(NamesSeen([], more, j)) && Distinct(NamesSeen([], more, j))
    {
      NamesSeenMore([], more, j);
      DistinctMore(NamesSeen([], more, j), more[j]);
      var isNew := AddName(m, more[j], NamesSeen([], more, j));
      if !isNew {
        return false;
      }
    }
    return true;
  }

  lemma NothingIn()
    ensures Elements([]) == {}
  {
  }

  /** The keys of the records, on the list the additional options left. */
  method CheckKeys(m: Manager<Text, ()>, chain: Chain<OptRec>, ghost seen: seq<Text>) returns (ok: bool)
    requires m.Valid() && |m.view| == 1 && Listed(m) == Elements(seen) && Distinct(seen) && chain != []
    modifies m, m.heads, m.nodes
    ensures ok <==> Distinct(seen + Names(Keys(Records(chain))))
  {
    hide Distinct, ToMap, Manager.Valid, Elements, NamesSeen, Names, Position, Records;
    ghost var recs := Records(chain);
    ghost var keys := Keys(recs);
    var c: nat, i: nat := 0, 0;
    ghost var n := 0;
    NextRecVisits(chain, 0, 0);
    NamesSeenEnds(seen, keys);
    while true
      invariant c < |chain| && i < |chain[c]| && n == Position(chain, c, i) < |recs|
      invariant m.Valid() && |m.view| == 1 && fresh(m.nodes - old(m.nodes))
      invariant Listed(m) == Elements(NamesSeen(seen, keys, n)) && Distinct(NamesSeen(seen, keys, n))
      decreases |recs| - n
    {
      NextRecVisits(chain, c, i);
      NamesSeenMore(seen, keys, n);
      var a := chain[c][i];
      DistinctMore(NamesSeen(seen, keys, n), a.key);
      var isNew := AddName(m, a.key, NamesSeen(seen, keys, n));
      if !isNew {
        return false;
      }
      var next := NextRec(chain, c, i);
      if next.None? {
        return true;
      }
      n := n + 1;
      c, i := next.value.0, next.value.1;
      NextRecVisits(chain, c, i);
    }
  }

  /**
   opt_duplicates: given memory for the list manager (alloc) and its nodes,
   true exactly if there are records and no option is in doubt.
   */
  method OptDuplicates(pre: Text, more: seq<Text>, chain: Chain<OptRec>, alloc: bool) returns (ok: bool)
    ensures ok <==> chain != [] && alloc && Unambiguous(pre, more, Records(chain))
  {
    hide Distinct, Manager.Valid, ToMap, Holds, IsGraph, IsValid;
    if chain == [] {
      return false;
    }
    Unambiguities(pre, more, Records(chain));
    var x := new bv8[32](_ => 0);
    NoBits(x[..]);
    ok := CheckPre(x, pre);
    if !ok {
      return;
    }
    ok := CheckShort(x, chain, PreKeys(pre));
    if !ok {
      return;
    }
    if !alloc {
      return false;
    }
    MemCmpIsOrder();
    var m := new Manager<Text, ()>(MemCmp, 1);
    NothingListed(m.view[0]);
    ok := CheckMore(m, more);
    if !ok {
      return;
    }
    ok := CheckKeys(m, chain, Names(more));
  }

  lemma NothingListed(s: seq<Entry<Text, ()>>)
    requires s == []
    ensures ToMap(s) == map[]
  {
  }

  lemma NoBits(x: seq<bv8>)
    requires |x| == 32 && forall k :: 0 <= k < 32 ==> x[k] == 0
    ensures Holds(x, [])
  {
    forall c: int | 0 <= c < 256
      ensures !BitSet(x[c / 8], c % 8)
    {
      SetBit(0, 0, c % 8);
    }
  }

  /** The parts of what the check looks for. */
  lemma Unambiguities(pre: Text, more: seq<Text>, recs: seq<OptRec>)
    ensures Unambiguous(pre, more, recs) <==>
      && ((forall k :: 0 <= k < |pre| ==> IsGraph(pre[k])) && Distinct(PreKeys(pre)))
      && ((forall k :: 0 <= k < |recs| && recs[k].sKey > 0 ==> IsValid(recs[k].sKey))
          && Distinct(PreKeys(pre) + ShortKeys(recs)))
      && Distinct(Names(more))
      && Distinct(Names(more) + Names(Keys(recs)))
  {
    hide Distinct, IsGraph, IsValid;
    if Distinct(PreKeys(pre) + ShortKeys(recs)) {
      DistinctPrefix(PreKeys(pre), PreKeys(pre) + ShortKeys(recs));
    }
    if Distinct(Names(more) + Names(Keys(recs))) {
      DistinctPrefix(Names(more), Names(more) + Names(Keys(recs)));
    }
  }
}
