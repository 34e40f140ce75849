/** The record arrays of src/opt.c, chained, and the iteration over them. */
module Options {
  import opened Wrappers
  import opened Octets
  import opened TextOrder

  type i8 = x: int | -0x80 <= x < 0x80

  datatype Kind = BoolOpt | TextOpt | IntOpt | EnumOpt | InvOpt

  /**
   struct opt_rec_t: the key, the short key or 0, the type, the default, the
   range, and the names of an enumerator if there is a callback for them.
   */
  datatype OptRec = OptRec(
    key: Text, sKey: i8, kind: Kind,
    def: i64, defText: Option<Text>, min: i64, max: i64, names: Option<map<i64, Text>>)

  /** Chained arrays.  addRecords takes arrays with at least one record. */
  type Chain<T> = c: seq<seq<T>> | forall k :: 0 <= k < |c| ==> c[k] != []

  /** All records, in the order they were added. */
  function Records<T>(chain: seq<seq<T>>): seq<T> {
    if chain == [] then [] else Records(chain[..|chain| - 1]) + chain[|chain| - 1]
  }

  /** Where record i of array c is among all records. */
  function Position<T>(chain: Chain<T>, c: nat, i: nat): nat
    requires c < |chain|
  {
    |Records(chain[..c])| + i
  }

  /** nextRec: the record after record i of array c; None after the last. */
  function NextRec<T>(chain: Chain<T>, c: nat, i: nat): (r: Option<(nat, nat)>)
    requires c < |chain| && i < |chain[c]|
    ensures r.Some? ==> r.value.0 < |chain| && r.value.1 < |chain[r.value.0]|
  {
    if i + 1 < |chain[c]| then Some((c, i + 1))
    else if c + 1 < |chain| then Some((c + 1, 0))
    else None
  }

  /** The iteration visits every record once, in order. */
  lemma NextRecVisits<T>(chain: Chain<T>, c: nat, i: nat)
    requires c < |chain| && i < |chain[c]|
    ensures Position(chain, c, i) < |Records(chain)| && Records(chain)[Position(chain, c, i)] == chain[c][i]
    ensures Position(chain, 0, 0) == 0
    ensures match NextRec(chain, c, i)
      case None => Position(chain, c, i) == |Records(chain)| - 1
      case Some(n) => Position(chain, n.0, n.1) == Position(chain, c, i) + 1
  {
    Prefix(chain, c + 1);
    assert chain[..c + 1][..c] == chain[..c];
    if c + 1 == |chain| {
      assert chain[..c + 1] == chain;
    }
  }

  /** The records of the first arrays come first. */
  lemma {:induction false} Prefix<T>(chain: seq<seq<T>>, c: nat)
    requires c <= |chain|
    ensures Records(chain[..c]) <= Records(chain)
  {
    if c < |chain| {
      Prefix(chain[..|chain| - 1], c);
      assert chain[..|chain| - 1][..c] == chain[..c];
    } else {
      assert chain[..c] == chain;
    }
  }

  /** Changing record i of array c changes one record of all. */
  lemma {:induction false} RecordChanged<T>(chain: Chain<T>, c: nat, i: nat, x: T)
    requires c < |chain| && i < |chain[c]|
    ensures Position(chain, c, i) < |Records(chain)|
    ensures Records(chain[c := chain[c][i := x]]) == Records(chain)[Position(chain, c, i) := x]
  {
    var n := |chain| - 1;
    var changed := chain[c := chain[c][i := x]];
    if c < n {
      var front: Chain<T> := chain[..n];
      RecordChanged(front, c, i, x);
      assert front[..c] == chain[..c];
      assert changed[..n] == front[c := front[c][i := x]];
    } else {
      assert changed[..n] == chain[..n];
    }
  }
}
