/** What reaches a socket, and receiving it. */
module Network {
  import opened Octets
  import opened Time
  import opened MessageObject
  import M = Message

  type Address = seq<octet>

  /** What one poll and receive bring: nothing in time, a failed receive, or a datagram and its receive time. */
  datatype Poll = Timeout | Failed | Datagram(octets: seq<octet>, from: Address, rx: Timespec)

  /** recvfrom cuts a datagram to the buffer's size. */
  function Cut(d: seq<octet>, size: nat): (m: seq<octet>)
    ensures |m| <= size
  {
    if |d| <= size then d else d[..size]
  }

  /** The buffer after a datagram was received into it. */
  function Received(d: seq<octet>, stale: seq<octet>): (r: seq<octet>)
    ensures |r| == |stale|
  {
    var m := Cut(d, |stale|);
    m + stale[|m|..]
  }

  method Receive(b: Buffer, d: seq<octet>) returns (ok: bool)
    requires b.Valid()
    modifies b, b.data
    ensures b.Valid() && ok == (d != [] && b.data.Length > 0)
    ensures b.data[..] == Received(d, old(b.data[..]))
    ensures ok ==> b.len == |Cut(d, b.data.Length)|
  {
    ghost var s := b.data[..];
    var m := Cut(d, b.data.Length);
    Store(b.data, 0, m);
    assert M.Splice(s, 0, m) == m + s[|m|..];
    if |m| == 0 {
      return false;
    }
    ok := b.SetLen(|m|);
  }
}
