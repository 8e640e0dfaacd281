/**
  Byte strings, the file primitives the builder uses (truncate, which pads with zeros, and a
  write at an offset), and little-endian integers, which read back as they were packed.
 */
module Bytes {
  type byte = x: int | 0 <= x < 256

  function Zeros(n: nat): (z: seq<byte>)
    ensures |z| == n
    ensures forall k :: 0 <= k < n ==> z[k] == 0
  {
    seq(n, _ => 0)
  }

  /** `b[off..off+n]`, or nothing when the bytes are not all there. */
  function Slice(b: seq<byte>, off: nat, n: nat): (s: seq<byte>)
    ensures |s| == if off + n <= |b| then n else 0
  {
    if off + n <= |b| then b[off..off + n] else []
  }

  /** `os.ftruncate`: cut, or extend with zero bytes. */
  function Ftruncate(b: seq<byte>, n: nat): (r: seq<byte>)
    ensures |r| == n
    ensures forall k :: 0 <= k < n ==> r[k] == if k < |b| then b[k] else 0
  {
    if n <= |b| then b[..n] else b + Zeros(n - |b|)
  }

  /** `os.pwrite`: overwrite from `off`; a write past the end leaves a zero-filled gap. */
  function Pwrite(b: seq<byte>, off: nat, data: seq<byte>): (r: seq<byte>)
    ensures |r| == if data == [] || off + |data| <= |b| then |b| else off + |data|
    ensures forall k :: off <= k < off + |data| ==> r[k] == data[k - off]
    ensures forall k :: 0 <= k < |b| && !(off <= k < off + |data|) ==> r[k] == b[k]
  {
    if data == [] then b
    else
      var base := Ftruncate(b, if |b| < off + |data| then off + |data| else |b|);
      base[..off] + data + base[off + |data|..]
  }

  /** `struct.pack("<...", n)` over `k` bytes. */
  function PackLE(n: nat, k: nat): (s: seq<byte>)
    ensures |s| == k
  {
    if k == 0 then [] else [n % 256] + PackLE(n / 256, k - 1)
  }

  function UnpackLE(s: seq<byte>): (n: nat) {
    if s == [] then 0 else s[0] + 256 * UnpackLE(s[1..])
  }

  function Pow256(k: nat): (p: nat) {
    if k == 0 then 1 else 256 * Pow256(k - 1)
  }

  /** Unpacking undoes packing for every integer that fits. */
  lemma {:induction false} UnpackPack(n: nat, k: nat)
    requires n < Pow256(k)
    ensures UnpackLE(PackLE(n, k)) == n
  {
    if k > 0 {
      UnpackPack(n / 256, k - 1);
      assert PackLE(n, k)[1..] == PackLE(n / 256, k - 1);
    }
  }

  /** An integer field reads as zero exactly when every byte of it is zero. */
  lemma {:induction false} UnpackZero(s: seq<byte>)
    ensures UnpackLE(s) == 0 <==> s == Zeros(|s|)
  {
    if s != [] {
      UnpackZero(s[1..]);
      if UnpackLE(s) == 0 {
        assert s[1..] == Zeros(|s| - 1);
        assert s == [s[0]] + s[1..];
      }
      if s == Zeros(|s|) {
        assert s[1..] == Zeros(|s| - 1);
      }
    }
  }

  /** Two byte strings of one length are equal when they agree at every offset. */
  lemma SameBytes(a: seq<byte>, b: seq<byte>)
    requires |a| == |b|
    requires forall k :: 0 <= k < |a| ==> a[k] == b[k]
    ensures a == b
  {
  }
}
