/**
 The timestamp store of src/store.c: a hash table of sorted lists that
 behaves as a map from client address to record, whatever the hash width.
 */
module Store {
  import opened Wrappers
  import opened Octets
  import opened Bits
  import opened Time
  import opened Wire
  import opened TextOrder
  import opened SortedList
  import opened ListManager
  import opened HashTable

  type Ip = Text // the octets of an address, in network order

  datatype Rec = Rec(ts: Timespec, seqId: u16, last: i64)

  const MAX_BITS: nat := 30

  /** hash4, hash6 and, for no bits, hash0: the low bits of the last four octets. */
  function Hash(ip: Ip, bits: nat): (h: nat)
    ensures h < Pow2(bits)
  {
    if bits == 0 || |ip| < 4 then 0
    else
      var v: nat := Wire32(ip, |ip| - 4);
      MaskIsRemainder(v, bits);
      BitAnd(v, Pow2(bits) - 1)
  }

  /** The hash is the last four octets, big-endian, modulo the number of lists. */
  lemma HashIs(ip: Ip, bits: nat)
    requires |ip| == 4 || |ip| == 16
    ensures var v: nat := Wire32(ip, |ip| - 4); Hash(ip, bits) == v % Pow2(bits)
    ensures bits == 0 ==> Hash(ip, bits) == 0
  {
    var v: nat := Wire32(ip, |ip| - 4);
    MaskIsRemainder(v, bits);
  }

  // The map the store is a fast form of.

  datatype State = State(table: map<Ip, Rec>, free: nat)

  datatype Request =
    | Update(ip: Ip, ts: Timespec, seqId: u16, now: i64, mem: bool)
    | Fetch(ip: Ip, seqId: u16, clear: bool)
    | Cleanup(now: i64, gap: u32)
    | Records

  datatype Outcome = Done(ok: bool) | Fetched(ts: Option<Timespec>) | Count(n: nat)

  function Fresh(table: map<Ip, Rec>, cutoff: int): map<Ip, Rec> {
    map k | k in table && table[k].last >= cutoff :: table[k]
  }

  function Act(s: State, r: Request): (State, Outcome) {
    match r
    case Update(ip, ts, seqId, now, mem) =>
      if ip in s.table then (s.(table := s.table[ip := Rec(ts, seqId, now)]), Done(true))
      else if s.free > 0 || mem then
        (State(s.table[ip := Rec(ts, seqId, now)], if s.free > 0 then s.free - 1 else 0), Done(true))
      else (s, Done(false))
    case Fetch(ip, seqId, clear) =>
      if ip !in s.table || s.table[ip].seqId != seqId then (s, Fetched(None))
      else
        var r := s.table[ip];
        (if clear then s.(table := s.table[ip := r.(ts := Timespec(0, 0))]) else s, Fetched(Some(r.ts)))
    case Cleanup(now, gap) =>
      var rest := Fresh(s.table, now - gap);
      FreshIsSmaller(s.table, now - gap);
      var gone: nat := |s.table| - |rest|;
      (State(rest, s.free + gone), Count(gone))
    case Records => (s, Count(|s.table|))
  }

  lemma FreshIsSmaller(table: map<Ip, Rec>, cutoff: int)
    ensures |Fresh(table, cutoff)| <= |table|
  {
    SubsetSize(Fresh(table, cutoff).Keys, table.Keys);
    assert |Fresh(table, cutoff)| == |Fresh(table, cutoff).Keys| && |table| == |table.Keys|;
  }

  lemma SubsetSize(a: set<Ip>, b: set<Ip>)
    requires a <= b
    ensures |a| <= |b|
  {
    assert b == a + (b - a);
  }

  // What each request does, in terms of addresses and records.

  lemma UpdateSets(s: State, ip: Ip, ts: Timespec, seqId: u16, now: i64, mem: bool)
    ensures var (v, out) := Act(s, Update(ip, ts, seqId, now, mem));
      var ok := ip in s.table || s.free > 0 || mem;
      && out == Done(ok)
      && (ok ==> v.table == s.table[ip := Rec(ts, seqId, now)])
      && (ok ==> v.free == if ip in s.table || s.free == 0 then s.free else s.free - 1)
      && (!ok ==> v == s)
  {
  }

  lemma FetchFinds(s: State, ip: Ip, seqId: u16, clear: bool)
    ensures var (v, out) := Act(s, Fetch(ip, seqId, clear));
      && (ip in s.table && s.table[ip].seqId == seqId ==>
            && out == Fetched(Some(s.table[ip].ts))
            && v.free == s.free
            && v.table == if clear then s.table[ip := Rec(Timespec(0, 0), seqId, s.table[ip].last)] else s.table)
      && (ip !in s.table || s.table[ip].seqId != seqId ==> out == Fetched(None) && v == s)
  {
  }

  /** The addresses whose records are older than the gap. */
  ghost function TooOld(table: map<Ip, Rec>, now: i64, gap: u32): set<Ip> {
    set ip | ip in table && table[ip].last < now - gap
  }

  lemma CleanupRemoves(s: State, now: i64, gap: u32)
    ensures var (v, out) := Act(s, Cleanup(now, gap));
      && (forall ip :: ip in v.table <==> ip in s.table && s.table[ip].last >= now - gap)
      && (forall ip :: ip in v.table ==> v.table[ip] == s.table[ip])
      && out == Count(|TooOld(s.table, now, gap)|) && v.free == s.free + |TooOld(s.table, now, gap)|
  {
    var rest, gone := Fresh(s.table, now - gap), TooOld(s.table, now, gap);
    assert s.table.Keys == rest.Keys + gone && rest.Keys !! gone;
    assert |s.table| == |s.table.Keys| && |rest| == |rest.Keys|;
  }

  lemma RecordsCounts(s: State)
    ensures Act(s, Records) == (s, Count(|s.table|))
  {
  }

  function Final(s: State, rs: seq<Request>): State {
    if rs == [] then s else Act(Final(s, rs[..|rs| - 1]), rs[|rs| - 1]).0
  }

  function Outcomes(s: State, rs: seq<Request>): (r: seq<Outcome>)
    ensures |r| == |rs|
  {
    if rs == [] then []
    else
      var n := |rs| - 1;
      Outcomes(s, rs[..n]) + [Act(Final(s, rs[..n]), rs[n]).1]
  }

  /** The request leaves the record of ip, last stored at time at, as it is. */
  predicate Spares(r: Request, ip: Ip, seqId: u16, at: i64) {
    match r
    case Update(ip', _, _, _, _) => ip' != ip
    case Fetch(ip', s, clear) => !(ip' == ip && s == seqId && clear)
    case Cleanup(now, gap) => now - gap <= at
    case Records => true
  }

  /** A stored time is found again, until it is overwritten, cleared or grown too old. */
  lemma {:induction false} UpdateThenFetch(s: State, u: Request, rs: seq<Request>, clear: bool)
    requires u.Update? && Act(s, u).1 == Done(true)
    requires forall i :: 0 <= i < |rs| ==> Spares(rs[i], u.ip, u.seqId, u.now)
    ensures Act(Final(Act(s, u).0, rs), Fetch(u.ip, u.seqId, clear)).1 == Fetched(Some(u.ts))
  {
    RecordStays(s, u, rs);
  }

  lemma {:induction false} RecordStays(s: State, u: Request, rs: seq<Request>)
    requires u.Update? && Act(s, u).1 == Done(true)
    requires forall i :: 0 <= i < |rs| ==> Spares(rs[i], u.ip, u.seqId, u.now)
    ensures var t := Final(Act(s, u).0, rs).table;
      u.ip in t && t[u.ip] == Rec(u.ts, u.seqId, u.now)
  {
    hide Act;
    if rs != [] {
      var n := |rs| - 1;
      RecordStays(s, u, rs[..n]);
      Spared(Final(Act(s, u).0, rs[..n]), rs[n], u);
    } else {
      Updated(s, u);
    }
  }

  lemma Updated(s: State, u: Request)
    requires u.Update? && Act(s, u).1 == Done(true)
    ensures var t := Act(s, u).0.table; u.ip in t && t[u.ip] == Rec(u.ts, u.seqId, u.now)
  {
  }

  /** A request that spares a record leaves it. */
  lemma Spared(s: State, r: Request, u: Request)
    requires u.Update? && Spares(r, u.ip, u.seqId, u.now)
    requires u.ip in s.table && s.table[u.ip] == Rec(u.ts, u.seqId, u.now)
    ensures var t := Act(s, r).0.table; u.ip in t && t[u.ip] == Rec(u.ts, u.seqId, u.now)
  {
  }

  class TimestampStore {
    const width: nat // octets of an address: 4 or 16
    const bits: nat
    const hash: Ip -> nat
    const mgr: Manager<Ip, Rec>

    ghost predicate Valid()
      reads this, mgr, mgr.heads, mgr.nodes
    {
      && mgr.Valid() && mgr.cmp == MemCmp
      && |mgr.view| == mgr.heads.Length == Pow2(bits)
      && (forall ip :: hash(ip) == Hash(ip, bits))
      && Hashed(mgr.view, hash)
      && (forall ip :: ip in Contents(mgr.view) ==> |ip| == width && Contents(mgr.view)[ip].ts.Normal())
    }

    ghost function Abstract(): State
      reads this, mgr
    {
      State(Contents(mgr.view), mgr.freeCount)
    }

    constructor (width: nat, bits: nat)
      requires width in {4, 16} && bits <= MAX_BITS
      ensures Valid() && fresh(mgr) && fresh(mgr.heads) && mgr.nodes == {}
      ensures this.width == width && Abstract() == State(map[], 0)
    {
      this.width, this.bits := width, bits;
      hash := ip => Hash(ip, bits);
      MemCmpIsOrder();
      mgr := new Manager(MemCmp, Pow2(bits));
      new;
      NothingStored(mgr.view);
    }

    lemma {:induction false} NothingStored(view: seq<seq<Entry<Ip, Rec>>>)
      requires forall l :: 0 <= l < |view| ==> view[l] == []
      ensures Contents(view) == map[]
    {
      if view != [] {
        NothingStored(view[..|view| - 1]);
      }
    }

    lemma Facts()
      requires Valid()
      ensures IsOrder(mgr.cmp) && forall l :: 0 <= l < |mgr.view| ==> Sorted(mgr.view[l], mgr.cmp)
      ensures mgr.count == |Contents(mgr.view)| && mgr.heads.Length == Pow2(bits)
    {
      hide Contents, Hashed, IsOrder, Sorted, MemCmp;
      mgr.ListFacts(0);
      ContentsSize(mgr.view, hash, mgr.cmp);
    }

    method Update(ip: Ip, ts: Timestamp, seqId: u16, now: i64, mem: bool) returns (ok: bool)
      requires Valid() && ts.Valid() && |ip| == width
      modifies mgr, mgr.heads, mgr.nodes
      ensures Valid() && fresh(mgr.nodes - old(mgr.nodes))
      ensures Act(old(Abstract()), Request.Update(ip, ts.ts, seqId, now, mem)) == (Abstract(), Done(ok))
      ensures ok == (ip in old(Abstract().table) || old(mgr.freeCount) > 0 || mem)
      ensures ok ==> Abstract().table == old(Abstract().table)[ip := Rec(ts.ts, seqId, now)]
      ensures !ok ==> Abstract() == old(Abstract())
    {
      hide Act, Contents, Hash, Valid;
      UpdateSets(Abstract(), ip, ts.ts, seqId, now, mem);
      ok := PutRecord(ip, Rec(ts.ts, seqId, now), mem);
    }

    method PutRecord(ip: Ip, rec: Rec, mem: bool) returns (ok: bool)
      requires Valid() && |ip| == width && rec.ts.Normal()
      modifies mgr, mgr.heads, mgr.nodes
      ensures Valid() && fresh(mgr.nodes - old(mgr.nodes))
      ensures ok == (ip in old(Abstract()).table || old(Abstract()).free > 0 || mem)
      ensures ok ==> Abstract().table == old(Abstract()).table[ip := rec]
      ensures var was := old(Abstract());
        ok ==> Abstract().free == (if ip in was.table || was.free == 0 then was.free else was.free - 1)
      ensures !ok ==> Abstract() == old(Abstract())
    {
      hide Contents, Hashed, IsOrder, Sorted, Put, Find, MemCmp, Hash, Manager.Valid, Manager.NodesStay;
      Facts();
      PutInTable(mgr.view, hash, mgr.cmp, ip, rec);
      ghost var was := Contents(mgr.view);
      ok := mgr.UpdateNode(hash(ip), ip, rec, mem);
      assert Contents(mgr.view) == if ok then was[ip := rec] else was;
    }

    method Fetch(ip: Ip, ts: Timestamp, seqId: u16, clear: bool) returns (ok: bool)
      requires Valid() && ts.Valid() && |ip| == width
      modifies mgr, mgr.nodes, ts
      ensures Valid() && ts.Valid() && mgr.nodes == old(mgr.nodes)
      ensures Act(old(Abstract()), Request.Fetch(ip, seqId, clear)) == (Abstract(), Fetched(if ok then Some(ts.ts) else None))
      ensures !ok ==> ts.ts == old(ts.ts)
      ensures ok == (ip in old(Abstract().table) && old(Abstract().table)[ip].seqId == seqId)
      ensures ok ==> ts.ts == old(Abstract().table)[ip].ts
      ensures ok && clear ==>
        Abstract().table == old(Abstract().table)[ip := Rec(Timespec(0, 0), seqId, old(Abstract().table)[ip].last)]
      ensures !ok || !clear ==> Abstract() == old(Abstract())
    {
      FetchFinds(Abstract(), ip, seqId, clear);
      hide Act, Contents, Hashed, IsOrder, Sorted, Find, MemCmp, Hash, Manager.Valid, Manager.NodesStay;
      Facts();
      FindInTable(mgr.view, hash, mgr.cmp, ip);
      var d: Node?<Ip, Rec>;
      ghost var i: nat;
      d, i := mgr.FetchNode(hash(ip), ip);
      if d == null || d.val.seqId != seqId {
        return false;
      }
      ts.FromTimespec(d.val.ts);
      if clear {
        SetInTable(mgr.view, hash, mgr.cmp, i, ip, d.val.(ts := Timespec(0, 0)));
        mgr.SetValue(hash(ip), d, i, d.val.(ts := Timespec(0, 0)));
      }
      return true;
    }

    method Cleanup(now: i64, gap: u32) returns (count: nat)
      requires Valid()
      modifies mgr, mgr.heads, mgr.nodes
      ensures Valid() && mgr.nodes == old(mgr.nodes)
      ensures Act(old(Abstract()), Request.Cleanup(now, gap)) == (Abstract(), Count(count))
      ensures var was, table := old(Abstract().table), Abstract().table;
        && (forall ip :: ip in table <==> ip in was && was[ip].last >= now - gap)
        && (forall ip :: ip in table ==> table[ip] == was[ip])
        && count == |TooOld(was, now, gap)|
    {
      CleanupRemoves(Abstract(), now, gap);
      hide Valid, Contents, MemCmp, Remaining, IsOrder, Sorted;
      var cutoff: int := now - gap;
      ghost var was := Contents(mgr.view);
      Facts();
      AllRemain(was, cutoff);
      count := 0;
      for l := 0 to mgr.heads.Length
        invariant Valid() && mgr.nodes == old(mgr.nodes)
        invariant Contents(mgr.view) == Remaining(was, l, cutoff)
        invariant mgr.freeCount == old(mgr.freeCount) + count && mgr.count + count == |was|
      {
        var n := CleanupList(l, cutoff, was);
        count := count + n;
      }
      Facts();
      NoneLeft(was, cutoff);
    }

    /** The records of the first l lists are cleaned, the others not yet. */
    ghost function Remaining(was: map<Ip, Rec>, l: nat, cutoff: int): map<Ip, Rec> {
      map k | k in was && !(Hash(k, bits) < l && was[k].last < cutoff) :: was[k]
    }

    lemma AllRemain(was: map<Ip, Rec>, cutoff: int)
      ensures Remaining(was, 0, cutoff) == was
    {
    }

    lemma NoneLeft(was: map<Ip, Rec>, cutoff: int)
      ensures Remaining(was, Pow2(bits), cutoff) == Fresh(was, cutoff)
    {
      assert Remaining(was, Pow2(bits), cutoff).Keys == Fresh(was, cutoff).Keys;
    }

    method CleanupList(l: nat, cutoff: int, ghost was: map<Ip, Rec>) returns (count: nat)
      requires Valid() && l < mgr.heads.Length && Contents(mgr.view) == Remaining(was, l, cutoff)
      modifies mgr, mgr.heads, mgr.nodes
      ensures Valid() && mgr.nodes == old(mgr.nodes)
      ensures Contents(mgr.view) == Remaining(was, l + 1, cutoff)
      ensures mgr.freeCount == old(mgr.freeCount) + count && mgr.count + count == old(mgr.count)
    {
      hide Contents, Hashed, IsOrder, Sorted, MemCmp, Hash, Manager.Valid;
      var pred: (Ip, Rec) -> bool := (k: Ip, v: Rec) => v.last < cutoff;
      ghost var view := mgr.view;
      Facts();
      mgr.NodesCounted();
      count := mgr.CleanUpAlone(l, pred);
      mgr.NodesCounted();
      FilterTable(view, hash, pred, l, mgr.view[l]);
      RemainingNext(was, l, cutoff);
      Facts();
    }

    lemma RemainingNext(was: map<Ip, Rec>, l: nat, cutoff: int)
      ensures var rest := Remaining(was, l, cutoff);
        Remaining(was, l + 1, cutoff) == map k | k in rest && !(Hash(k, bits) == l && rest[k].last < cutoff) :: rest[k]
    {
      hide Hash;
    }

    method Records() returns (n: nat)
      requires Valid()
      ensures Act(Abstract(), Request.Records) == (Abstract(), Count(n))
      ensures n == |Abstract().table|
    {
      Facts();
      n := mgr.count;
    }

    /** Any run of requests has the outcomes that the map has. */
    method Perform(rs: seq<Request>) returns (outs: seq<Outcome>)
      requires Valid()
      requires forall i :: 0 <= i < |rs| ==> Legal(rs[i])
      modifies mgr, mgr.heads, mgr.nodes
      ensures Valid() && fresh(mgr.nodes - old(mgr.nodes))
      ensures outs == Outcomes(old(Abstract()), rs) && Abstract() == Final(old(Abstract()), rs)
    {
      hide Valid, Contents, Act;
      outs := [];
      for i := 0 to |rs|
        invariant Valid() && fresh(mgr.nodes - old(mgr.nodes))
        invariant outs == Outcomes(old(Abstract()), rs[..i]) && Abstract() == Final(old(Abstract()), rs[..i])
      {
        assert rs[..i + 1][..i] == rs[..i];
        var out := PerformOne(rs[i]);
        outs := outs + [out];
      }
      assert rs[..|rs|] == rs;
    }

    predicate Legal(r: Request) {
      match r
      case Update(ip, ts, _, _, _) => |ip| == width && ts.Normal()
      case Fetch(ip, _, _) => |ip| == width
      case _ => true
    }

    method PerformOne(r: Request) returns (out: Outcome)
      requires Valid() && Legal(r)
      modifies mgr, mgr.heads, mgr.nodes
      ensures Valid() && fresh(mgr.nodes - old(mgr.nodes))
      ensures Act(old(Abstract()), r) == (Abstract(), out)
    {
      hide Valid, Act, Contents;
      match r
      case Update(ip, t, seqId, now, mem) =>
        var ts := new Timestamp();
        ts.FromTimespec(t);
        var ok := Update(ip, ts, seqId, now, mem);
        out := Done(ok);
      case Fetch(ip, seqId, clear) =>
        var ts := new Timestamp();
        var ok := Fetch(ip, ts, seqId, clear);
        out := Fetched(if ok then Some(ts.ts) else None);
      case Cleanup(now, gap) =>
        var n := Cleanup(now, gap);
        out := Count(n);
      case Records =>
        var n := Records();
        out := Count(n);
    }
  }

  /**
   store_alloc: fails for an unsupported protocol, for more than 32 bits, and
   without memory (mem); 31 and 32 bits overflow its shift.
   */
  method StoreAlloc(protocol: u16, bits: nat, mem: bool) returns (r: TimestampStore?)
    requires bits <= MAX_BITS || bits > 32
    ensures r == null <==> (protocol != 1 && protocol != 2) || bits > 32 || !mem
    ensures r != null ==> fresh(r) && fresh(r.mgr) && r.Valid() && r.width == (if protocol == 1 then 4 else 16)
    ensures r != null ==> r.Abstract() == State(map[], 0)
  {
    if AddressSize(protocol) == 0 || bits > 32 {
      return null;
    }
    if !mem {
      return null;
    }
    r := new TimestampStore(AddressSize(protocol), bits);
  }

  /** Stores of any two hash widths answer every run of requests alike. */
  method WidthsAgree(width: nat, bits1: nat, bits2: nat, rs: seq<Request>) returns (outs1: seq<Outcome>, outs2: seq<Outcome>)
    requires width in {4, 16} && bits1 <= MAX_BITS && bits2 <= MAX_BITS
    requires forall i :: 0 <= i < |rs| ==>
      (rs[i].Update? || rs[i].Fetch? ==> |rs[i].ip| == width) && (rs[i].Update? ==> rs[i].ts.Normal())
    ensures outs1 == outs2 == Outcomes(State(map[], 0), rs)
  {
    hide Contents, Act;
    var s1 := new TimestampStore(width, bits1);
    outs1 := s1.Perform(rs);
    var s2 := new TimestampStore(width, bits2);
    outs2 := s2.Perform(rs);
  }
}
