/** Octets, little-endian integer fields and Go's truncating integer
    conversions, as the framing layer uses them. */
module Wire {

  /** One octet on the wire. */
  type byte = b: int | 0 <= b < 256

  const Two16: nat := 0x1_0000
  const Two32: nat := 0x1_0000_0000

  /** Go's `uint16(n)` on a two's-complement `int`: the low 16 bits, that is
      the one value below 2^16 congruent to `n`. */
  function Uint16(n: int): (r: nat)
    ensures r < Two16
    ensures (n - r) % Two16 == 0
    ensures 0 <= n < Two16 ==> r == n
  {
    n % Two16
  }

  /** Go's `uint32(n)` on a two's-complement `int`. */
  function Uint32(n: int): (r: nat)
    ensures r < Two32
    ensures (n - r) % Two32 == 0
    ensures 0 <= n < Two32 ==> r == n
  {
    n % Two32
  }

  /** `binary.LittleEndian.Uint16`: the first two bytes, low byte first. */
  function GetUint16(b: seq<byte>): (v: nat)
    requires |b| >= 2
    ensures v < Two16
  {
    b[0] as int + 256 * (b[1] as int)
  }

  /** The two bytes `binary.LittleEndian.PutUint16` stores for `v`. */
  function PutUint16(v: nat): (b: seq<byte>)
    requires v < Two16
    ensures |b| == 2
  {
    [v % 256, v / 256]
  }

  /** A little-endian u32 field read at offset `off`, as `binary.Read` does
      after seeking a `bytes.Reader` to `off`. */
  function GetUint32At(b: seq<byte>, off: nat): (v: nat)
    requires off + 4 <= |b|
    ensures v < Two32
  {
    b[off] as int + 256 * (b[off + 1] as int)
      + 0x1_0000 * (b[off + 2] as int) + 0x100_0000 * (b[off + 3] as int)
  }

  /** The four bytes of a little-endian u32. */
  function PutUint32(v: nat): (b: seq<byte>)
    requires v < Two32
    ensures |b| == 4
  {
    [v % 256, (v / 256) % 256, (v / 0x1_0000) % 256, v / 0x100_0000]
  }

  /** Writing a u16 and reading it back gives the value. */
  lemma Uint16RoundTrip(v: nat)
    requires v < Two16
    ensures GetUint16(PutUint16(v)) == v
  {
  }

  /** Reading two bytes as a u16 and writing it back gives the bytes. */
  lemma Uint16BytesRoundTrip(b: seq<byte>)
    requires |b| == 2
    ensures PutUint16(GetUint16(b)) == b
  {
  }

  /** Writing a u32 and reading it back, wherever the field sits, gives the
      value. */
  lemma Uint32RoundTrip(prefix: seq<byte>, v: nat, suffix: seq<byte>)
    requires v < Two32
    ensures GetUint32At(prefix + PutUint32(v) + suffix, |prefix|) == v
  {
  }

  /** `binary.LittleEndian.PutUint16(b[off:], v)`: stores the two bytes of
      `v` in place and leaves the rest of `b` alone. */
  method PutUint16Into(b: array<byte>, off: nat, v: nat)
    requires off + 2 <= b.Length && v < Two16
    modifies b
    ensures b[off..off + 2] == PutUint16(v)
    ensures forall i :: 0 <= i < b.Length && (i < off || off + 2 <= i) ==> b[i] == old(b[i])
  {
    b[off] := v % 256;
    b[off + 1] := v / 256;
  }
}
