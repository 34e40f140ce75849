/** The message sizes of src/main_client.c. */
module Sizes {
  import opened Octets
  import opened Bits
  import opened Wire

  const SIZE_MOD: nat := 0x1_0000_0000_0000_0000 // size_t has 64 bits

  /** client_main_smooth_size, with the wrap-around of size_t. */
  function SmoothSize(sz: u64): u64 {
    var s: nat := (sz + 10) % SIZE_MOD;
    var low: int := BitAnd((s + 1) % SIZE_MOD, 0xf);
    (s + BitAnd((0x11 - low) % SIZE_MOD, 0xf)) % SIZE_MOD
  }

  /** The least multiple of 16 from n up. */
  predicate LeastMultiple(m: int, n: int) {
    m % 16 == 0 && n <= m < n + 16
  }

  lemma MaskF(a: nat)
    ensures BitAnd(a, 0xf) == a % 16
  {
    assert Pow2(4) == 16;
    MaskIsRemainder(a, 4);
  }

  /**
   The smoothed size is the least multiple of 16 that is at least 10 more
   than the size, to within the 64 bits of size_t: exact for every size it
   can hold, wrapped for the last few.
   */
  lemma SmoothSizeIsLeast(sz: u64) returns (m: int)
    ensures LeastMultiple(m, sz + 10) && SmoothSize(sz) == m % SIZE_MOD
    ensures forall other: int :: other % 16 == 0 && other >= sz + 10 ==> m <= other
    ensures m < SIZE_MOD <==> sz <= SIZE_MOD - 26
    ensures sz <= SIZE_MOD - 26 ==> SmoothSize(sz) == m && 10 <= SmoothSize(sz) - sz <= 25
  {
    hide BitAnd, SmoothSize;
    m := (sz + 25) / 16 * 16;
    LeastOf(sz + 10);
    forall other: int | other % 16 == 0 && other >= sz + 10
      ensures m <= other
    {
      IsLeast(m, sz + 10, other);
    }
    Fits64(sz, m);
    var s: nat := (sz + 10) % SIZE_MOD;
    SmoothSizeIs(sz);
    PadTo16(s);
    SameModulo(sz + 10, s, (17 - (s + 1) % 16) % 16);
  }

  lemma IsLeast(m: int, n: int, other: int)
    requires LeastMultiple(m, n) && other % 16 == 0 && other >= n
    ensures m <= other
  {
  }

  lemma LeastOf(n: nat)
    ensures LeastMultiple((n + 15) / 16 * 16, n)
  {
  }

  lemma Fits64(sz: u64, m: int)
    requires LeastMultiple(m, sz + 10)
    ensures m < SIZE_MOD <==> sz <= SIZE_MOD - 26
  {
    assert SIZE_MOD == 16 * 0x1000_0000_0000_0000;
    if m < SIZE_MOD {
      assert m / 16 < 0x1000_0000_0000_0000;
    }
  }

  lemma SmoothSizeIs(sz: u64)
    ensures var s: nat := (sz + 10) % SIZE_MOD; SmoothSize(sz) == (s + (17 - (s + 1) % 16) % 16) % SIZE_MOD
  {
    hide BitAnd;
    var s: nat := (sz + 10) % SIZE_MOD;
    MaskF((s + 1) % SIZE_MOD);
    var low: nat := (s + 1) % SIZE_MOD % 16;
    assert low == (s + 1) % 16 by {
      assert s + 1 == SIZE_MOD || (s + 1) % SIZE_MOD == s + 1;
    }
    var pad: nat := 0x11 - low;
    assert pad % SIZE_MOD == pad;
    MaskF(pad % SIZE_MOD);
  }

  lemma PadTo16(s: nat)
    ensures (s + (17 - (s + 1) % 16) % 16) % 16 == 0
  {
    var q, r := (s + 1) / 16, (s + 1) % 16;
    assert s == 16 * q + r - 1;
  }

  lemma SameModulo(a: nat, s: nat, d: nat)
    requires s == a % SIZE_MOD && d < 16 && (s + d) % 16 == 0
    ensures (s + d) % SIZE_MOD == (a + 15) / 16 * 16 % SIZE_MOD
  {
    var q := a / SIZE_MOD;
    assert a == q * SIZE_MOD + s;
    assert SIZE_MOD == 16 * 0x1000_0000_0000_0000;
    assert (a + 15) / 16 * 16 == q * SIZE_MOD + (s + d);
  }

  /** getTlvSize */
  function TlvSize(id: u16): nat {
    MinTlvSize(id) + if id == ALT_TIME then MAX_TZ_LEN else 0
  }

  /** getCSPTPStatusTlvSize: 0 for an unsupported protocol. */
  function StatusTlvSize(protocol: u16): nat {
    var add := AddressSize(protocol);
    if add == 0 then 0 else add + MinTlvSize(CSPTP_STATUS)
  }

  /** client_main_get_msg_size */
  function MsgSize(status: bool, altTime: bool, protocol: u16): nat {
    MSG_SIZE + TlvSize(CSPTP_RESPONSE)
    + (if status then StatusTlvSize(protocol) else 0)
    + (if altTime then TlvSize(ALT_TIME) else 0)
  }

  /** The tlvReqFlags0 that client_main_set_tx_params makes of the options. */
  function RequestFlags(status: bool, altTime: bool): octet {
    (if status then 1 else 0) + (if altTime then 2 else 0)
  }

  /** The size of each option set, for IPv4 (1) and IPv6 (2). */
  lemma MsgSizes(status: bool, altTime: bool, protocol: u16)
    ensures !status && !altTime ==> MsgSize(status, altTime, protocol) == 72
    ensures !status && altTime ==> MsgSize(status, altTime, protocol) == 102
    ensures protocol == 1 && status && !altTime ==> MsgSize(status, altTime, protocol) == 108
    ensures protocol == 2 && status && !altTime ==> MsgSize(status, altTime, protocol) == 120
    ensures protocol == 1 && status && altTime ==> MsgSize(status, altTime, protocol) == 138
    ensures protocol == 2 && status && altTime ==> MsgSize(status, altTime, protocol) == 150
    ensures protocol != 1 && protocol != 2 ==> MsgSize(status, altTime, protocol) == MsgSize(false, altTime, protocol)
  {
  }

  /** Bit 0 asks for a STATUS, bit 1 for a time zone. */
  lemma FlagsAre(status: bool, altTime: bool)
    ensures RequestFlags(status, altTime) % 2 == 1 <==> status
    ensures RequestFlags(status, altTime) / 2 == 1 <==> altTime
    ensures RequestFlags(status, altTime) < 4
  {
  }
}
