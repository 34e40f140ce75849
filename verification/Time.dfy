/**
 The timestamp object of src/time.c: seconds and nanoseconds, the PTP
 Timestamp with its 48-bit seconds, and the 64-bit arithmetic between them.
 */
module Time {
  import opened Octets
  import opened Wrappers

  const NSEC_PER_SEC: int := 1_000_000_000
  const NSEC_PER_MSEC: int := 1_000_000
  const MSEC_PER_SEC: int := 1000
  const UINT48_MAX: int := 0xffff_ffff_ffff

  /** struct timespec */
  datatype Timespec = Timespec(sec: i64, nsec: i64) {
    predicate Normal() {
      0 <= nsec < NSEC_PER_SEC
    }

    /** The instant, in nanoseconds, as a mathematical integer. */
    function Nanos(): int {
      sec * NSEC_PER_SEC + nsec
    }
  }

  /** struct Timestamp_t: 48-bit seconds as a high and a low part, then nanoseconds. */
  datatype PtpTime = PtpTime(high: u16, low: u32, nsec: u32)

  // C's lldiv: the quotient truncates toward zero, the remainder has the dividend's sign.

  function TruncDiv(a: int, b: int): (q: int)
    requires b > 0
    ensures a >= 0 ==> b * q <= a < b * q + b
    ensures a <= 0 ==> b * q - b < a <= b * q
  {
    if a >= 0 then a / b else -(-a / b)
  }

  function TruncRem(a: int, b: int): (r: int)
    requires b > 0
    ensures -b < r < b && (a >= 0 ==> r >= 0) && (a <= 0 ==> r <= 0)
  {
    a - b * TruncDiv(a, b)
  }

  /** get_uint48 */
  function GetUint48(high: u16, low: u32): int {
    low + 0x1_0000_0000 * high
  }

  /** set_uint48: fails above 48 bits, else splits the value into its parts. */
  function SetUint48(value: u64): (r: Option<(u16, u32)>)
    ensures r.Some? <==> value <= 0xffff_ffff_ffff
    ensures r.Some? ==> r.value.0 * 0x1_0000_0000 + r.value.1 == value
  {
    if value > UINT48_MAX then None
    else Some((value / 0x1_0000_0000 % 0x1_0000, value % 0x1_0000_0000))
  }

  /** t_toTimestamp on values. */
  function ToPtp(t: Timespec): Option<PtpTime> {
    if t.sec < 0 || !t.Normal() || t.sec > UINT48_MAX then None
    else
      match SetUint48(t.sec)
      case None => None
      case Some(p) => Some(PtpTime(p.0, p.1, t.nsec))
  }

  /** t_fromTimestamp on values. */
  function FromPtp(p: PtpTime): Option<Timespec> {
    if p.nsec >= NSEC_PER_SEC then None
    else Some(Timespec(GetUint48(p.high, p.low), p.nsec))
  }

  /** The ten octets of a Timestamp_t in host order. */
  function PtpOctets(p: PtpTime): (r: seq<octet>)
    ensures |r| == 10 && PtpAt(r, 0) == p
  {
    Put16(p.high) + Put32(p.low) + Put32(p.nsec)
  }

  /** A Timestamp_t loaded from a message in host order. */
  function PtpAt(s: seq<octet>, o: nat): PtpTime
    requires o + 10 <= |s|
  {
    PtpTime(Get16(s, o), Get32(s, o + 2), Get32(s, o + 6))
  }

  /** A Timestamp_t read from the wire: big-endian 48-bit seconds and 32-bit nanoseconds. */
  function WirePtp(s: seq<octet>, o: nat): PtpTime
    requires o + 10 <= |s|
  {
    PtpTime(Wire16(s, o), Wire32(s, o + 2), Wire32(s, o + 6))
  }

  /** The three swaps of cpu_to_net_ts and net_to_cpu_ts, as positions. */
  function PtpFlip(k: int, o: nat): int {
    Flip(Flip(Flip(k, o, 2), o + 2, 4), o + 6, 4)
  }

  lemma SwappedPtp(s: seq<octet>, t: seq<octet>, o: nat)
    requires |s| == |t| && o + 10 <= |s|
    requires forall k :: o <= k < o + 10 ==> t[k] == s[PtpFlip(k, o)]
    ensures PtpAt(t, o) == WirePtp(s, o) && WirePtp(t, o) == PtpAt(s, o)
    ensures Wire48(t, o) == GetUint48(PtpAt(s, o).high, PtpAt(s, o).low)
  {
    assert Reversed(s, t, o, 2) && Reversed(s, t, o + 2, 4) && Reversed(s, t, o + 6, 4);
    Swapped16(s, t, o);
    Swapped32(s, t, o + 2);
    Swapped32(s, t, o + 6);
  }

  /** Seconds and nanoseconds, and the instant they are. */
  lemma NanosAre(t: Timespec)
    ensures t.Normal() <==> 0 <= t.nsec < 1_000_000_000
    ensures t.Nanos() == t.sec * 1_000_000_000 + t.nsec
  {
  }

  /** Exactly the normalised times from 0 to the 48-bit limit have a PTP Timestamp, which is of this time, and it converts back. */
  lemma PtpRoundTrip(t: Timespec)
    ensures ToPtp(t).Some? <==> 0 <= t.nsec < 1_000_000_000 && 0 <= t.sec < 0x1_0000_0000_0000
    ensures ToPtp(t).Some? ==>
      var p := ToPtp(t).value;
      p.high * 0x1_0000_0000 + p.low == t.sec && p.nsec == t.nsec && FromPtp(p) == Some(t)
  {
  }

  /** The other way round: every Timestamp with nanoseconds in range survives, every other is refused. */
  lemma PtpRoundTripBack(p: PtpTime)
    ensures FromPtp(p).Some? <==> p.nsec < 1_000_000_000
    ensures FromPtp(p).Some? ==> FromPtp(p).value == Timespec(p.high * 0x1_0000_0000 + p.low, p.nsec)
    ensures FromPtp(p).Some? ==> ToPtp(FromPtp(p).value) == Some(p)
  {
    if FromPtp(p).Some? {
      var v := GetUint48(p.high, p.low);
      assert v / 0x1_0000_0000 == p.high && v % 0x1_0000_0000 == p.low;
    }
  }

  /**
   A time sent on the wire: its ten octets are swapped into network order
   (net), the receiver swaps them back (host) and converts.  The receiver
   gets the sender's time, and the first six wire octets are the seconds,
   big-endian.
   */
  lemma TimeSurvivesTheWire(t: Timespec, net: seq<octet>, host: seq<octet>)
    requires 0 <= t.nsec < 1_000_000_000 && 0 <= t.sec < 0x1_0000_0000_0000
    requires |net| == 10 && forall k :: 0 <= k < 10 ==> net[k] == PtpOctets(ToPtp(t).value)[PtpFlip(k, 0)]
    requires |host| == 10 && forall k :: 0 <= k < 10 ==> host[k] == net[PtpFlip(k, 0)]
    ensures FromPtp(PtpAt(host, 0)) == Some(t)
    ensures Wire48(net, 0) == t.sec && Wire32(net, 6) == t.nsec
  {
    PtpRoundTrip(t);
    SwappedPtp(PtpOctets(ToPtp(t).value), net, 0);
    SwappedPtp(net, host, 0);
  }

  /**
   getTs computes sec * 10^9 + nsec in 64 bits.  After setTs(v) the product
   stays in 64 bits exactly for the values from -9223372036000000000 up.
   */
  lemma GetAfterSet(t: Timespec, v: i64)
    requires t.Normal() && t.Nanos() == v
    ensures (-0x8000_0000_0000_0000 <= t.sec * 1_000_000_000 < 0x8000_0000_0000_0000)
      <==> v >= -9_223_372_036_000_000_000
  {
    NanosAre(t);
    assert t.sec * NSEC_PER_SEC <= v < (t.sec + 1) * NSEC_PER_SEC;
  }

  class Timestamp {
    var ts: Timespec

    /** Every setter leaves the nanoseconds normalised. */
    predicate Valid()
      reads this
    {
      ts.Normal()
    }

    constructor ()
      ensures Valid() && ts == Timespec(0, 0)
    {
      ts := Timespec(0, 0);
    }

    method FromTimespec(t: Timespec)
      requires Valid()
      modifies this
      ensures Valid()
      ensures ts == if t.Normal() then t else old(ts)
    {
      if t.nsec < NSEC_PER_SEC && t.nsec >= 0 {
        ts := t;
      }
    }

    method Assign(other: Timestamp)
      requires Valid() && other.Valid()
      modifies this
      ensures Valid() && ts == old(other.ts)
    {
      if other.ts.nsec < NSEC_PER_SEC && other.ts.nsec >= 0 {
        ts := other.ts;
      }
    }

    method FromTimestamp(p: PtpTime) returns (ok: bool)
      requires Valid()
      modifies this
      ensures Valid()
      ensures ok == FromPtp(p).Some?
      ensures ts == if ok then FromPtp(p).value else old(ts)
    {
      if p.nsec >= NSEC_PER_SEC {
        return false;
      }
      ts := Timespec(GetUint48(p.high, p.low), p.nsec);
      return true;
    }

    method ToTimestamp() returns (r: Option<PtpTime>)
      requires Valid()
      ensures r == ToPtp(ts)
    {
      if ts.sec < 0 {
        return None;
      }
      if ts.sec > UINT48_MAX {
        return None;
      }
      var parts := SetUint48(ts.sec);
      if parts.None? {
        return None;
      }
      r := Some(PtpTime(parts.value.0, parts.value.1, ts.nsec));
    }

    /** Floor division by way of C's truncating lldiv. */
    method SetTs(v: i64)
      modifies this
      ensures Valid() && ts.Nanos() == v
    {
      var quot, rem := TruncDiv(v, NSEC_PER_SEC), TruncRem(v, NSEC_PER_SEC);
      if rem < 0 {
        rem := rem + NSEC_PER_SEC;
        quot := quot - 1;
      }
      ts := Timespec(quot, rem);
    }

    method GetTs() returns (v: i64)
      requires Valid()
      requires -0x8000_0000_0000_0000 <= ts.sec * NSEC_PER_SEC
      requires ts.Nanos() < 0x8000_0000_0000_0000
      ensures v == ts.Nanos()
    {
      v := ts.sec * NSEC_PER_SEC + ts.nsec;
    }

    /** One carry either way is enough: the remainder is less than a second. */
    method AddMilliseconds(milliseconds: i32)
      requires Valid()
      requires -0x7fff_ffff_0000_0000 <= ts.sec <= 0x7fff_ffff_0000_0000
      modifies this
      ensures Valid()
      ensures ts.Nanos() == old(ts.Nanos()) + milliseconds * 1_000_000
    {
      var quot, rem := TruncDiv(milliseconds, MSEC_PER_SEC), TruncRem(milliseconds, MSEC_PER_SEC);
      var sec, nsec := ts.sec + quot, ts.nsec + rem * NSEC_PER_MSEC;
      assert sec * NSEC_PER_SEC + nsec == ts.Nanos() + milliseconds * NSEC_PER_MSEC;
      if nsec >= NSEC_PER_SEC {
        nsec := nsec - NSEC_PER_SEC;
        sec := sec + 1;
      } else if nsec < 0 {
        nsec := nsec + NSEC_PER_SEC;
        sec := sec - 1;
      }
      ts := Timespec(sec, nsec);
    }

    predicate Eq(other: Timestamp)
      requires Valid() && other.Valid()
      reads this, other
      ensures Eq(other) <==> ts.Nanos() == other.ts.Nanos()
    {
      ts.sec == other.ts.sec && ts.nsec == other.ts.nsec
    }

    predicate Less(other: Timestamp)
      requires Valid() && other.Valid()
      reads this, other
      ensures Less(other) <==> ts.Nanos() < other.ts.Nanos()
    {
      ts.sec < other.ts.sec || (ts.sec == other.ts.sec && ts.nsec < other.ts.nsec)
    }

    predicate LessEq(other: Timestamp)
      requires Valid() && other.Valid()
      reads this, other
      ensures LessEq(other) <==> ts.Nanos() <= other.ts.Nanos()
    {
      ts.sec < other.ts.sec || (ts.sec == other.ts.sec && ts.nsec <= other.ts.nsec)
    }
  }
}
