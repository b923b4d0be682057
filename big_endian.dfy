/** Fixed-width integers and their big-endian byte encodings, as written by
    the `byteorder` crate's `write_u16::<BigEndian>` and friends. */
module BigEndian {

  type byte = b: int | 0 <= b < 0x100
  type u16 = x: int | 0 <= x < 0x1_0000
  type i16 = x: int | -0x8000 <= x < 0x8000
  type u32 = x: int | 0 <= x < 0x1_0000_0000

  /** Rust's `n as u16` on an unsigned integer: keep the low 16 bits. */
  function TruncateU16(n: nat): (r: u16)
    ensures n < 0x1_0000 ==> r == n
    ensures (n - r) % 0x1_0000 == 0
  {
    n % 0x1_0000
  }

  /** Rust's `n as u32` on an unsigned integer: keep the low 32 bits. */
  function TruncateU32(n: nat): (r: u32)
    ensures n < 0x1_0000_0000 ==> r == n
    ensures (n - r) % 0x1_0000_0000 == 0
  {
    n % 0x1_0000_0000
  }

  /** `n` zero bytes, as `vec![0u8; n]`. */
  function Zeros(n: nat): (z: seq<byte>)
    ensures |z| == n
    ensures forall i :: 0 <= i < n ==> z[i] == 0
  {
    seq(n, _ => 0)
  }

  /** Decoders: the inverse reading of each encoding below. */
  function FromBeU16(b: seq<byte>): u16
    requires |b| == 2
  {
    (b[0] as int) * 0x100 + b[1] as int
  }

  function FromBeI16(b: seq<byte>): i16
    requires |b| == 2
  {
    var u := FromBeU16(b);
    if u < 0x8000 then u else u - 0x1_0000
  }

  function FromBeU32(b: seq<byte>): u32
    requires |b| == 4
  {
    (((b[0] as int) * 0x100 + b[1] as int) * 0x100 + b[2] as int) * 0x100 + b[3] as int
  }

  /** `x.to_be_bytes()` for a u16: high byte first. */
  function BeU16(x: u16): (r: seq<byte>)
    ensures |r| == 2
    ensures FromBeU16(r) == x
  {
    [x / 0x100, x % 0x100]
  }

  /** A signed 16-bit value in two's complement, high byte first. */
  function BeI16(x: i16): (r: seq<byte>)
    ensures |r| == 2
    ensures FromBeI16(r) == x
  {
    BeU16(if x < 0 then x + 0x1_0000 else x)
  }

  /** `x.to_be_bytes()` for a u32: most significant byte first. */
  function BeU32(x: u32): (r: seq<byte>)
    ensures |r| == 4
    ensures FromBeU32(r) == x
  {
    [x / 0x100_0000, (x / 0x1_0000) % 0x100, (x / 0x100) % 0x100, x % 0x100]
  }

  /** The encodings are also onto: every byte pair or quadruple is produced
      by exactly the value it decodes to. */
  lemma BeU16OfDecoded(b: seq<byte>)
    requires |b| == 2
    ensures BeU16(FromBeU16(b)) == b
  {
  }

  lemma BeI16OfDecoded(b: seq<byte>)
    requires |b| == 2
    ensures BeI16(FromBeI16(b)) == b
  {
    BeU16OfDecoded(b);
  }

  lemma BeU32OfDecoded(b: seq<byte>)
    requires |b| == 4
    ensures BeU32(FromBeU32(b)) == b
  {
    var b0, b1, b2, b3: int := b[0], b[1], b[2], b[3];
    var x := FromBeU32(b);
    assert x == b0 * 0x100_0000 + (b1 * 0x100 + b2) * 0x100 + b3;
    assert x / 0x100_0000 == b0;
    assert x / 0x1_0000 == b0 * 0x100 + b1;
    assert (x / 0x1_0000) % 0x100 == b1;
    assert x / 0x100 == (b0 * 0x100 + b1) * 0x100 + b2;
    assert (x / 0x100) % 0x100 == b2;
    assert x % 0x100 == b3;
  }
}
