/** Machine integers, bytes, the clock and the protocol's constants. */
module Base {

  datatype Option<+T> = None | Some(value: T)

  const TWO64: nat := 0x1_0000_0000_0000_0000

  type U64 = n: nat | n < TWO64

  type Byte = n: nat | n < 256

  type Bytes = seq<Byte>

  /** An I2P destination. Its Base64 form, the key of the sender table, is the address itself. */
  type Addr = string

  type SenderHash = string

  /** A reading of the one monotone clock, in nanoseconds. */
  type Time = int

  const MILLISECOND: nat := 1_000_000
  const SECOND: nat := 1000 * MILLISECOND
  const MINUTE: nat := 60 * SECOND

  const MAX_DURATION: int := 0x7FFF_FFFF_FFFF_FFFF

  const REPLIABLE_INTERVAL: nat := 500
  const REPLIABLE_TIME_INTERVAL: nat := 4 * MINUTE
  const HASH_EXPIRY: nat := 10 * MINUTE
  const ACK_TIMEOUT: nat := 10 * SECOND
  const MAX_UNACKED: nat := 3
  const ACK_REQUEST_INTERVAL: nat := 1
  const RECV_BUFFER: nat := 100

  /** Addition of one in 64-bit unsigned arithmetic. */
  function Succ(n: U64): U64 {
    (n + 1) % TWO64
  }

  /** The difference of two clock readings as a 64-bit duration, which saturates. */
  function Elapsed(from: Time, to: Time): (d: int)
    ensures -MAX_DURATION - 1 <= d <= MAX_DURATION
  {
    if to - from > MAX_DURATION then MAX_DURATION
    else if to - from < -MAX_DURATION - 1 then -MAX_DURATION - 1
    else to - from
  }

  function Pow256(n: nat): (p: nat)
    ensures p > 0
  {
    if n == 0 then 1 else 256 * Pow256(n - 1)
  }

  /** The low `width` bytes of v, most significant first. */
  function PutBigEndian(width: nat, v: nat): (bs: Bytes)
    ensures |bs| == width
  {
    if width == 0 then [] else PutBigEndian(width - 1, v / 256) + [v % 256]
  }

  function GetBigEndian(bs: Bytes): nat {
    if bs == [] then 0 else 256 * GetBigEndian(bs[..|bs| - 1]) + bs[|bs| - 1]
  }

  lemma {:induction false} GetPut(width: nat, v: nat)
    requires v < Pow256(width)
    ensures GetBigEndian(PutBigEndian(width, v)) == v
  {
    if width > 0 {
      GetPut(width - 1, v / 256);
      var bs := PutBigEndian(width, v);
      assert bs[..width - 1] == PutBigEndian(width - 1, v / 256);
    }
  }

  lemma {:induction false} PutGet(bs: Bytes)
    ensures GetBigEndian(bs) < Pow256(|bs|)
    ensures PutBigEndian(|bs|, GetBigEndian(bs)) == bs
  {
    if bs != [] {
      var front := bs[..|bs| - 1];
      PutGet(front);
      assert GetBigEndian(bs) / 256 == GetBigEndian(front);
      assert bs == front + [bs[|bs| - 1]];
    }
  }

  /** The first byte is the most significant one. */
  lemma {:induction false} MostSignificantFirst(bs: Bytes)
    requires bs != []
    ensures GetBigEndian(bs) == bs[0] * Pow256(|bs| - 1) + GetBigEndian(bs[1..])
  {
    var n := |bs| - 1;
    if n == 0 {
      assert GetBigEndian(bs) == 256 * GetBigEndian(bs[..0]) + bs[0];
    } else {
      MostSignificantFirst(bs[..n]);
      assert bs[..n][1..] == bs[1..][..n - 1];
      assert 256 * (bs[0] * Pow256(n - 1)) == bs[0] * Pow256(n);
    }
  }

  lemma WidthsOfU16AndU64()
    ensures Pow256(2) == 0x1_0000 && Pow256(8) == TWO64
  {
    assert Pow256(2) == 256 * 256;
    assert Pow256(4) == 256 * 256 * Pow256(2);
    assert Pow256(6) == 256 * 256 * Pow256(4);
  }

  lemma SubsetSize<T>(small: set<T>, large: set<T>)
    requires small <= large
    ensures |small| <= |large|
  {
    assert large == small + (large - small);
  }
}
