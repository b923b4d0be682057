/** The byte layout `encode` produces, stated offset by offset. */
module EncodeLayout {
  import opened Results
  import opened BigEndian
  import opened Unicode
  import opened Alias
  import opened Cursors
  import opened Encoder

  lemma HeaderLength(info: Info)
    requires NamesFit(info)
    ensures |Prologue(info)| == 10 && |VolumeFields(info)| == 40
    ensures |FileFields(info)| == 72 && |FixedTrailer()| == 28
    ensures |Header(info)| == 150
  {
  }

  /** With well-formed extras, the stream is as long as `total` says. */
  lemma {:induction false} ExtrasBytesLength(extras: seq<Extra>)
    requires ExtrasWellFormed(extras)
    ensures |ExtrasBytes(extras)| == ExtraLength(extras)
    decreases |extras|
  {
    if extras != [] {
      var init := extras[..|extras| - 1];
      assert ExtrasWellFormed(init) by {
        forall i | 0 <= i < |init| ensures |init[i].data| == init[i].length {
          assert init[i] == extras[i];
        }
      }
      ExtrasBytesLength(init);
    }
  }

  /** Appending an extra appends its bytes and adds its size. */
  lemma ExtrasAppend(extras: seq<Extra>, e: Extra)
    ensures ExtrasBytes(extras + [e]) == ExtrasBytes(extras) + ExtraBytes(e)
    ensures ExtraLength(extras + [e]) == ExtraLength(extras) + ExtraSize(e)
  {
    assert (extras + [e])[..|extras|] == extras;
  }

  /** The bytes of the first `k` extras begin the bytes of all of them. */
  lemma {:induction false} ExtrasBytesPrefix(extras: seq<Extra>, k: nat)
    requires k <= |extras|
    ensures ExtrasBytes(extras[..k]) <= ExtrasBytes(extras)
    decreases |extras|
  {
    if k < |extras| {
      var init := extras[..|extras| - 1];
      assert init[..k] == extras[..k];
      ExtrasBytesPrefix(init, k);
    } else {
      assert extras[..k] == extras;
    }
  }

  /** For a record whose names fit and whose extras are well formed,
      `encode` returns exactly the written stream, of length
      150 + (sum of 4 + length + length % 2) + 4. */
  lemma EncodeLength(info: Info)
    requires NamesFit(info) && ExtrasWellFormed(info.extras)
    ensures EncodeSpec(info) == Success(Stream(info))
    ensures |Stream(info)| == Total(info) == 150 + ExtraLength(info.extras) + 4
  {
    HeaderLength(info);
    ExtrasBytesLength(info.extras);
    var s := Stream(info);
    assert |s| == Total(info);
    assert Fill(s, Zeros(Total(info))) == s;
  }

  /** Any byte range inside the stream reads the stream, whatever the extras. */
  lemma EncodedRange(info: Info, a: nat, b: nat)
    requires NamesFit(info) && a <= b <= |Stream(info)|
    ensures b <= |EncodeSpec(info).value|
    ensures EncodeSpec(info).value[a..b] == Stream(info)[a..b]
  {
    var r := EncodeSpec(info).value;
    assert r[..|Stream(info)|] == Stream(info);
    assert r[a..b] == r[..|Stream(info)|][a..b];
  }

  /** A range of a piece placed at `off` is the same range of `r`, shifted. */
  lemma SliceShift(r: seq<byte>, off: nat, v: seq<byte>, a: nat, b: nat)
    requires off + |v| <= |r| && r[off..off + |v|] == v && a <= b <= |v|
    ensures r[off + a..off + b] == v[a..b]
  {
    forall i | 0 <= i < b - a ensures r[off + a..off + b][i] == v[a..b][i] {
      assert r[off + a + i] == r[off..off + |v|][a + i];
    }
  }

  /** The same, for a range given by its start and length. */
  lemma SliceShiftFrom(r: seq<byte>, off: nat, v: seq<byte>, a: nat, n: nat)
    requires off + |v| <= |r| && r[off..off + |v|] == v && a + n <= |v|
    ensures r[off + a..off + a + n] == v[a..a + n]
  {
    SliceShift(r, off, v, a, a + n);
  }

  /** A piece of a piece placed at `off` is placed at the summed offset. */
  lemma Place(r: seq<byte>, off: nat, v: seq<byte>, a: nat, e: seq<byte>)
    requires off + |v| <= |r| && r[off..off + |v|] == v
    requires a + |e| <= |v| && v[a..a + |e|] == e
    ensures off + a + |e| <= |r| && r[off + a..off + a + |e|] == e
  {
    SliceShiftFrom(r, off, v, a, |e|);
  }

  /** The middle piece of a three-piece concatenation. */
  lemma Middle(h: seq<byte>, x: seq<byte>, t: seq<byte>, n: nat)
    requires |h| == n
    ensures (h + x + t)[n..n + |x|] == x
  {
  }

  /** The four header pieces sit at 0, 10, 50 and 122 of the output. */
  lemma HeaderPieces(info: Info)
    requires NamesFit(info)
    ensures var r := EncodeSpec(info).value;
      && |r| >= 150
      && r[0..10] == Prologue(info)
      && r[10..50] == VolumeFields(info)
      && r[50..122] == FileFields(info)
      && r[122..150] == FixedTrailer()
  {
    HeaderLength(info);
    var p, v, f, t := Prologue(info), VolumeFields(info), FileFields(info), FixedTrailer();
    var h := Header(info);
    assert h[0..10] == p && h[10..50] == v && h[50..122] == f && h[122..150] == t;
    EncodedRange(info, 0, 150);
    assert Stream(info)[0..150] == h;
    var r := EncodeSpec(info).value;
    SliceShift(r, 0, h, 0, 10);
    SliceShift(r, 0, h, 10, 50);
    SliceShift(r, 0, h, 50, 122);
    SliceShift(r, 0, h, 122, 150);
  }

  /** The prologue, field by field. */
  lemma PrologueFields(info: Info)
    ensures var p := Prologue(info);
      && |p| == 10
      && p[0..4] == [0, 0, 0, 0]
      && p[4..6] == BeU16(TruncateU16(Total(info)))
      && p[6..8] == BeU16(info.version)
      && p[8..10] == BeU16(info.target.kind.Code())
  {
    var p := Prologue(info);
    assert p[0..4] == BeU32(0);
  }

  /** Bytes 0..10: four zero bytes, then `total` as a big-endian u16 (the
      exact total whenever it fits in 16 bits), the version and the target
      type code. */
  lemma EncodePrologue(info: Info)
    requires NamesFit(info)
    ensures var r := EncodeSpec(info).value;
      && |r| >= 150
      && r[0..4] == [0, 0, 0, 0]
      && r[4..6] == BeU16(TruncateU16(Total(info)))
      && (Total(info) < 0x1_0000 ==> FromBeU16(r[4..6]) == Total(info))
      && r[6..8] == BeU16(info.version)
      && r[8..10] == BeU16(info.target.kind.Code())
  {
    HeaderPieces(info);
    var r := EncodeSpec(info).value;
    var p := Prologue(info);
    PrologueFields(info);
    SliceShift(r, 0, p, 0, 4);
    SliceShift(r, 0, p, 4, 6);
    SliceShift(r, 0, p, 6, 8);
    SliceShift(r, 0, p, 8, 10);
  }

  /** A name slot placed at `off`: the length byte, the name, zeros. */
  lemma NameSlotAt(r: seq<byte>, off: nat, name: seq<byte>, width: nat)
    requires |name| <= width < 0x100
    requires off + width + 1 <= |r| && r[off..off + width + 1] == NameSlot(name, width)
    ensures r[off] == |name|
    ensures r[off + 1..off + 1 + |name|] == name
    ensures forall i :: off + 1 + |name| <= i < off + 1 + width ==> r[i] == 0
  {
    var slot := NameSlot(name, width);
    assert r[off] == slot[0];
    SliceShift(r, off, slot, 1, 1 + |name|);
    forall i | off + 1 + |name| <= i < off + 1 + width ensures r[i] == 0 {
      assert r[i] == slot[i - off];
    }
  }

  /** Bytes 10..50: the 28-byte volume name slot (length byte, UTF-8 name,
      zeros), the volume date, the signature, the volume type and the
      parent id. */
  lemma EncodeVolumeFields(info: Info)
    requires NamesFit(info)
    ensures var r := EncodeSpec(info).value;
      var name := Utf8(info.volume.name);
      && |r| >= 150
      && r[10] == |name|
      && r[11..11 + |name|] == name
      && (forall i :: 11 + |name| <= i < 38 ==> r[i] == 0)
      && r[38..42] == BeU32(info.volume.created)
      && r[42..44] == info.volume.signature.Bytes()
      && r[44..46] == BeU16(info.volume.kind.Code())
      && r[46..50] == BeU32(info.parent.id)
  {
    HeaderPieces(info);
    var r := EncodeSpec(info).value;
    var v := VolumeFields(info);
    var name := Utf8(info.volume.name);
    assert v[..28] == NameSlot(name, 27);
    SliceShift(r, 10, v, 0, 28);
    NameSlotAt(r, 10, name, 27);
    assert v[28..32] == BeU32(info.volume.created);
    assert v[32..34] == info.volume.signature.Bytes();
    assert v[34..36] == BeU16(info.volume.kind.Code());
    assert v[36..40] == BeU32(info.parent.id);
    SliceShift(r, 10, v, 28, 32);
    SliceShift(r, 10, v, 32, 34);
    SliceShift(r, 10, v, 34, 36);
    SliceShift(r, 10, v, 36, 40);
  }

  /** Bytes 50..122: the 64-byte file name slot, the target id and the
      target date. */
  lemma EncodeFileFields(info: Info)
    requires NamesFit(info)
    ensures var r := EncodeSpec(info).value;
      var name := Utf8(info.target.filename);
      && |r| >= 150
      && r[50] == |name|
      && r[51..51 + |name|] == name
      && (forall i :: 51 + |name| <= i < 114 ==> r[i] == 0)
      && r[114..118] == BeU32(info.target.id)
      && r[118..122] == BeU32(info.target.created)
  {
    HeaderPieces(info);
    var r := EncodeSpec(info).value;
    var f := FileFields(info);
    var name := Utf8(info.target.filename);
    assert f[..64] == NameSlot(name, 63);
    SliceShift(r, 50, f, 0, 64);
    NameSlotAt(r, 50, name, 63);
    assert f[64..68] == BeU32(info.target.id);
    assert f[68..72] == BeU32(info.target.created);
    SliceShift(r, 50, f, 64, 68);
    SliceShift(r, 50, f, 68, 72);
  }

  /** The constant bytes of the fixed trailer, field by field. */
  lemma FixedTrailerFields()
    ensures var t := FixedTrailer();
      && |t| == 28
      && t[0..8] == [0, 0, 0, 0, 0, 0, 0, 0]
      && t[8..12] == [0xFF, 0xFF, 0xFF, 0xFF]
      && t[12..16] == [0x00, 0x00, 0x0D, 0x02]
      && t[16..28] == [0, 0, 0, 0, 0, 0, 0, 0, 0, 0, 0, 0]
  {
    var t := FixedTrailer();
    assert t[0..8] == Zeros(4) + Zeros(4);
    assert t[8..12] == BeI16(-1) + BeI16(-1);
    assert t[12..16] == BeU32(3330);
    assert t[16..28] == BeU16(0) + Zeros(10);
  }

  /** Bytes 122..150 never vary: zero type and creator codes, nlvl from and
      to -1, volume attributes 3330, file-system id 0, ten reserved zeros. */
  lemma EncodeFixedTrailer(info: Info)
    requires NamesFit(info)
    ensures var r := EncodeSpec(info).value;
      && |r| >= 150
      && r[122..130] == [0, 0, 0, 0, 0, 0, 0, 0]
      && r[130..134] == [0xFF, 0xFF, 0xFF, 0xFF]
      && r[134..138] == [0x00, 0x00, 0x0D, 0x02]
      && r[138..150] == [0, 0, 0, 0, 0, 0, 0, 0, 0, 0, 0, 0]
  {
    HeaderPieces(info);
    var r := EncodeSpec(info).value;
    var t := FixedTrailer();
    FixedTrailerFields();
    SliceShift(r, 122, t, 0, 8);
    SliceShift(r, 122, t, 8, 12);
    SliceShift(r, 122, t, 12, 16);
    SliceShift(r, 122, t, 16, 28);
  }

  /** One extra record: big-endian tag, big-endian declared length, the
      data, and one zero pad byte if and only if the declared length is
      odd. */
  lemma ExtraRecordLayout(e: Extra)
    ensures var b := ExtraBytes(e);
      && |b| == 4 + |e.data| + (if e.length % 2 == 1 then 1 else 0)
      && FromBeI16(b[0..2]) == e.tag
      && FromBeU16(b[2..4]) == e.length
      && b[4..4 + |e.data|] == e.data
      && (e.length % 2 == 1 ==> b[|b| - 1] == 0)
      && (|e.data| == e.length ==> |b| == ExtraSize(e))
  {
    var b := ExtraBytes(e);
    assert b[0..2] == BeI16(e.tag);
    assert b[2..4] == BeU16(e.length);
  }

  /** The bytes of the extras follow the 150-byte header in the output. */
  lemma ExtrasPlaced(info: Info)
    requires NamesFit(info)
    ensures var r := EncodeSpec(info).value;
      var all := ExtrasBytes(info.extras);
      && 150 + |all| <= |r|
      && r[150..150 + |all|] == all
  {
    var all := ExtrasBytes(info.extras);
    HeaderLength(info);
    Middle(Header(info), all, Terminator(), 150);
    assert Stream(info)[150..150 + |all|] == all;
    EncodedRange(info, 150, 150 + |all|);
  }

  /** Within the bytes of all extras, extra `k` starts after the sizes of
      the extras before it, once those are well formed. */
  lemma ExtraWithin(extras: seq<Extra>, k: nat)
    requires k < |extras| && ExtrasWellFormed(extras[..k])
    ensures var start := ExtraLength(extras[..k]);
      var e := ExtraBytes(extras[k]);
      && start + |e| <= |ExtrasBytes(extras)|
      && ExtrasBytes(extras)[start..start + |e|] == e
  {
    var all := ExtrasBytes(extras);
    var before := ExtrasBytes(extras[..k]);
    var upTo := ExtrasBytes(extras[..k + 1]);
    var e := ExtraBytes(extras[k]);
    assert extras[..k + 1][..k] == extras[..k];
    assert upTo == before + e;
    ExtrasBytesPrefix(extras, k + 1);
    ExtrasBytesLength(extras[..k]);
    assert all[0..|upTo|] == upTo;
    SliceShiftFrom(all, 0, upTo, |before|, |e|);
  }

  /** The extras appear in input order: once the extras before it are well
      formed, extra `k` is written starting at byte 150 plus the sizes of
      the extras before it. */
  lemma EncodeExtraAt(info: Info, k: nat)
    requires NamesFit(info) && k < |info.extras|
    requires ExtrasWellFormed(info.extras[..k])
    ensures var r := EncodeSpec(info).value;
      var start := 150 + ExtraLength(info.extras[..k]);
      && start + |ExtraBytes(info.extras[k])| <= |r|
      && r[start..start + |ExtraBytes(info.extras[k])|] == ExtraBytes(info.extras[k])
  {
    ExtraWithin(info.extras, k);
    ExtrasPlaced(info);
    Place(EncodeSpec(info).value, 150, ExtrasBytes(info.extras), ExtraLength(info.extras[..k]),
      ExtraBytes(info.extras[k]));
  }

  /** With well-formed extras the record ends with the sentinel FF FF 00 00. */
  lemma EncodeTerminator(info: Info)
    requires NamesFit(info) && ExtrasWellFormed(info.extras)
    ensures var r := EncodeSpec(info).value;
      |r| >= 4 && r[|r| - 4..] == [0xFF, 0xFF, 0x00, 0x00]
  {
    EncodeLength(info);
    var s := Stream(info);
    assert s[|s| - 4..] == Terminator() == [0xFF, 0xFF, 0x00, 0x00];
  }
}
