/** Bytes, little-endian words and memcpy into a fixed buffer. */
module Bytes {

  type Byte = x: int | 0 <= x < 256

  function Pow256(k: nat): (p: nat)
    ensures p > 0
  {
    if k == 0 then 1 else 256 * Pow256(k - 1)
  }

  /** The `k` low bytes of `n`, least significant first. */
  function Le(n: nat, k: nat): (b: seq<Byte>)
    ensures |b| == k
  {
    if k == 0 then [] else [n % 256] + Le(n / 256, k - 1)
  }

  function FromLe(b: seq<Byte>): nat {
    if b == [] then 0 else b[0] + 256 * FromLe(b[1..])
  }

  lemma {:induction false} LeRoundTrip(n: nat, k: nat)
    requires n < Pow256(k)
    ensures FromLe(Le(n, k)) == n
  {
    if k > 0 {
      LeRoundTrip(n / 256, k - 1);
      assert Le(n, k)[1..] == Le(n / 256, k - 1);
    }
  }

  const WORD64: nat := 0x1_0000_0000_0000_0000

  lemma Pow256Of8()
    ensures Pow256(8) == WORD64
  {
    assert Pow256(4) == 0x1_0000_0000 by {
      assert Pow256(2) == 0x1_0000;
    }
    assert Pow256(6) == 0x1_0000_0000_0000;
  }

  /** A size_t as memcpy stores it. */
  function Size(n: nat): (b: seq<Byte>)
    ensures |b| == 8
  {
    Le(n, 8)
  }

  lemma SizeRoundTrip(n: nat)
    requires n < WORD64
    ensures FromLe(Size(n)) == n
  {
    Pow256Of8();
    LeRoundTrip(n, 8);
  }

  const HALF64: int := 0x8000_0000_0000_0000

  predicate IsInt64(i: int) {
    -HALF64 <= i < HALF64
  }

  /** Two's complement. */
  function Wrapped(i: int): nat {
    if i < 0 && i + WORD64 >= 0 then i + WORD64 else if i < 0 then 0 else i
  }

  function Signed(u: nat): int {
    if u < HALF64 then u else u - WORD64
  }

  lemma SignedRoundTrip(i: int)
    requires IsInt64(i)
    ensures Signed(FromLe(Le(Wrapped(i), 8))) == i
  {
    Pow256Of8();
    LeRoundTrip(Wrapped(i), 8);
  }

  method MemCpy(buf: array<Byte>, pos: nat, src: seq<Byte>)
    requires pos + |src| <= buf.Length
    modifies buf
    ensures buf[..] == old(buf[..pos]) + src + old(buf[pos + |src|..])
  {
    var n := 0;
    while n < |src|
      invariant n <= |src|
      invariant buf[..] == old(buf[..pos]) + src[..n] + old(buf[pos + n..])
    {
      buf[pos + n] := src[n];
      n := n + 1;
    }
    assert src[..n] == src;
  }
}
