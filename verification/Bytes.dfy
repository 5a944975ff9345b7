/**
Bytes and big-endian integers as they appear on the wire.

`ToBytes(n, v)` is a C++ cast to an n-byte unsigned integer followed by
`native_to_network`: it keeps the low n bytes of v and writes the most
significant byte first. `FromBytes` is the read back.
 */
module Bytes {
  type Byte = b: int | 0 <= b < 0x100
  type Short = w: int | 0 <= w < 0x1_0000
  type Word = w: int | 0 <= w < 0x1_0000_0000

  function Pow256(n: nat): (p: nat)
    ensures p > 0
  {
    if n == 0 then 1 else 0x100 * Pow256(n - 1)
  }

  lemma PowSizes()
    ensures Pow256(2) == 0x1_0000
    ensures Pow256(4) == 0x1_0000_0000
  {
    assert Pow256(1) == 0x100;
    assert Pow256(2) == 0x1_0000;
    assert Pow256(3) == 0x100_0000;
  }

  function ToBytes(n: nat, v: nat): (r: seq<Byte>)
    ensures |r| == n
  {
    if n == 0 then [] else ToBytes(n - 1, v / 0x100) + [v % 0x100]
  }

  function FromBytes(b: seq<Byte>): nat {
    if b == [] then 0 else 0x100 * FromBytes(b[..|b| - 1]) + b[|b| - 1]
  }

  lemma {:induction false} FromBytesBound(b: seq<Byte>)
    ensures FromBytes(b) < Pow256(|b|)
  {
    if b != [] {
      FromBytesBound(b[..|b| - 1]);
    }
  }

  /** The truncating write followed by the read is the value modulo 256^n: the identity when it fits. */
  lemma {:induction false} FromToBytes(n: nat, v: nat)
    ensures v < Pow256(n) ==> FromBytes(ToBytes(n, v)) == v
  {
    if n > 0 {
      FromToBytes(n - 1, v / 0x100);
      assert ToBytes(n, v)[..n - 1] == ToBytes(n - 1, v / 0x100);
    }
  }

  /** A run of zero bytes, as vector::resize and the sized vector constructor produce. */
  function Zeros(n: nat): (r: seq<Byte>)
    ensures |r| == n
    ensures forall i :: 0 <= i < n ==> r[i] == 0
  {
    seq(n, _ => 0)
  }

  lemma {:induction false} FromZeros(n: nat)
    ensures FromBytes(Zeros(n)) == 0
  {
    if n > 0 {
      FromZeros(n - 1);
      assert Zeros(n)[..n - 1] == Zeros(n - 1);
    }
  }

  lemma {:induction false} ZerosInFront(z: nat, b: seq<Byte>)
    ensures FromBytes(Zeros(z) + b) == FromBytes(b)
    decreases |b|
  {
    if b == [] {
      FromZeros(z);
      assert Zeros(z) + b == Zeros(z);
    } else {
      var front := b[..|b| - 1];
      ZerosInFront(z, front);
      assert (Zeros(z) + b)[..z + |b| - 1] == Zeros(z) + front;
    }
  }

  /** An integer without its z low bytes. */
  function HighPart(v: nat, z: nat): (r: nat)
    ensures r <= v
  {
    if z == 0 then v else HighPart(v / 0x100, z - 1)
  }

  /** The leading bytes of an integer are its high part. */
  lemma {:induction false} LeadingBytes(n: nat, v: nat, z: nat)
    requires z <= n
    ensures ToBytes(n, v)[..n - z] == ToBytes(n - z, HighPart(v, z))
    decreases z
  {
    if z > 0 {
      LeadingBytes(n - 1, v / 0x100, z - 1);
      assert ToBytes(n, v)[..n - z] == ToBytes(n - 1, v / 0x100)[..n - z];
    }
  }

  lemma {:induction false} HighPartBound(n: nat, v: nat, z: nat)
    requires z <= n && v < Pow256(n)
    ensures HighPart(v, z) < Pow256(n - z)
    decreases z
  {
    if z > 0 {
      HighPartBound(n - 1, v / 0x100, z - 1);
    }
  }
}
