/** Octet strings in the order of memcmp and strcmp, as the lists use it. */
module TextOrder {
  import opened Octets
  import opened SortedList

  type Text = seq<octet>

  /** memcmp and strcmp: the difference of the first octets that differ; a proper prefix comes first. */
  function MemCmp(a: Text, b: Text): int {
    if a == [] then (if b == [] then 0 else -1)
    else if b == [] then 1
    else if a[0] != b[0] then a[0] - b[0]
    else MemCmp(a[1..], b[1..])
  }

  /** The first octets that differ decide, and a string that goes on comes after one that ends. */
  lemma {:induction false} MemCmpIs(a: Text, b: Text, k: nat)
    requires k <= |a| && k <= |b| && a[..k] == b[..k]
    ensures k < |a| && k < |b| && a[k] != b[k] ==> (MemCmp(a, b) > 0 <==> a[k] > b[k])
    ensures k == |b| < |a| ==> MemCmp(a, b) > 0
    ensures k == |a| < |b| ==> MemCmp(a, b) < 0
  {
    if k > 0 {
      assert a[0] == a[..k][0] == b[..k][0] == b[0];
      assert a[1..][..k - 1] == a[..k][1..] && b[1..][..k - 1] == b[..k][1..];
      MemCmpIs(a[1..], b[1..], k - 1);
    }
  }

  lemma {:induction false} MemCmpZero(a: Text, b: Text)
    ensures MemCmp(a, b) == 0 <==> a == b
    ensures MemCmp(a, b) > 0 <==> MemCmp(b, a) < 0
  {
    if a != [] && b != [] {
      MemCmpZero(a[1..], b[1..]);
      assert a == [a[0]] + a[1..] && b == [b[0]] + b[1..];
    }
  }

  lemma {:induction false} MemCmpTrans(a: Text, b: Text, c: Text)
    requires MemCmp(a, b) > 0 && MemCmp(b, c) > 0
    ensures MemCmp(a, c) > 0
  {
    if b != [] && c != [] && a[0] == b[0] == c[0] {
      MemCmpTrans(a[1..], b[1..], c[1..]);
    }
  }

  /** A list ordered by it is kept in descending order. */
  lemma MemCmpIsOrder()
    ensures IsOrder(MemCmp)
  {
    forall a, b
      ensures MemCmp(a, b) == 0 <==> a == b
      ensures MemCmp(a, b) > 0 <==> MemCmp(b, a) < 0
    {
      MemCmpZero(a, b);
    }
    forall a, b, c | MemCmp(a, b) > 0 && MemCmp(b, c) > 0
      ensures MemCmp(a, c) > 0
    {
      MemCmpTrans(a, b, c);
    }
  }
}
