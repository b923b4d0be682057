/** `encode`: the serialiser for a version-2 alias record. The expected
    bytes are given by `EncodeSpec`; the method `Encode` writes them through
    a cursor, as the source does, and the lemmas below pin down the layout. */
module Encoder {
  import opened Results
  import opened BigEndian
  import opened Unicode
  import opened Alias
  import opened Cursors

  datatype EncodeError = VolumeNameTooLong | FileNameTooLong

  /** Size of one extra in the stream, as the `extra_length` closure counts
      it: tag, length, declared data length, and a pad byte when odd. */
  function ExtraSize(e: Extra): nat
  {
    4 + e.length + e.length % 2
  }

  /** The `.sum()` of `ExtraSize` over the extras. */
  function ExtraLength(extras: seq<Extra>): nat
  {
    if extras == [] then 0
    else ExtraLength(extras[..|extras| - 1]) + ExtraSize(extras[|extras| - 1])
  }

  /** `total`: the 150-byte fixed part, the extras and the 4-byte terminator. */
  function Total(info: Info): nat
  {
    150 + ExtraLength(info.extras) + 4
  }

  /** Each extra's data really has its declared length. */
  predicate ExtrasWellFormed(extras: seq<Extra>)
  {
    forall i :: 0 <= i < |extras| ==> |extras[i].data| == extras[i].length
  }

  /** Both names fit their slots (measured in UTF-8 bytes). */
  predicate NamesFit(info: Info)
  {
    |Utf8(info.volume.name)| <= 27 && |Utf8(info.target.filename)| <= 63
  }

  /** A length byte, the name, and zeros up to `width` name bytes. */
  function NameSlot(name: seq<byte>, width: nat): (r: seq<byte>)
    requires |name| <= width < 0x100
    ensures |r| == width + 1
    ensures r[0] == |name| && r[1..1 + |name|] == name
    ensures forall i :: 1 + |name| <= i <= width ==> r[i] == 0
  {
    [|name|] + name + Zeros(width - |name|)
  }

  /** Bytes 0..10: reserved zeros, `total as u16`, version, target type. */
  function Prologue(info: Info): (r: seq<byte>)
  {
    BeU32(0) + BeU16(TruncateU16(Total(info))) + BeU16(info.version) + BeU16(info.target.kind.Code())
  }

  /** Bytes 10..50: volume name slot, volume date, signature, volume type,
      parent id. */
  function VolumeFields(info: Info): (r: seq<byte>)
    requires |Utf8(info.volume.name)| <= 27
  {
    NameSlot(Utf8(info.volume.name), 27) + BeU32(info.volume.created)
      + info.volume.signature.Bytes() + BeU16(info.volume.kind.Code()) + BeU32(info.parent.id)
  }

  /** Bytes 50..122: file name slot, target id, target date. */
  function FileFields(info: Info): (r: seq<byte>)
    requires |Utf8(info.target.filename)| <= 63
  {
    NameSlot(Utf8(info.target.filename), 63) + BeU32(info.target.id) + BeU32(info.target.created)
  }

  /** Bytes 122..150: file type and creator codes (zero), nlvl from and to
      (-1), volume attributes 3330, file-system id 0, 10 reserved zeros. */
  function FixedTrailer(): (r: seq<byte>)
  {
    Zeros(4) + Zeros(4) + BeI16(-1) + BeI16(-1) + BeU32(3330) + BeU16(0) + Zeros(10)
  }

  function Header(info: Info): seq<byte>
    requires NamesFit(info)
  {
    Prologue(info) + VolumeFields(info) + FileFields(info) + FixedTrailer()
  }

  /** One extra as the loop body writes it. */
  function ExtraBytes(e: Extra): seq<byte>
  {
    BeI16(e.tag) + BeU16(e.length) + e.data + (if e.length % 2 == 1 then [0] else [])
  }

  function ExtrasBytes(extras: seq<Extra>): seq<byte>
  {
    if extras == [] then []
    else ExtrasBytes(extras[..|extras| - 1]) + ExtraBytes(extras[|extras| - 1])
  }

  /** The sentinel extra: tag -1, length 0. */
  function Terminator(): seq<byte>
  {
    BeI16(-1) + BeU16(0)
  }

  /** Every byte the cursor writes, in order. */
  function Stream(info: Info): seq<byte>
    requires NamesFit(info)
  {
    Header(info) + ExtrasBytes(info.extras) + Terminator()
  }

  /** The result of `encode`: the volume-name check comes first, then the
      file-name check; otherwise the written stream over the zeroed
      `total`-byte buffer (which the stream fills exactly whenever the extras are
      well formed, see EncodeLength). */
  function EncodeSpec(info: Info): (r: Result<seq<byte>, EncodeError>)
    ensures r.Failure? <==> !NamesFit(info)
    ensures r.Failure? ==> (r.error == VolumeNameTooLong <==> |Utf8(info.volume.name)| > 27)
    ensures r.Success? ==> |r.value| >= Total(info) && |r.value| >= |Stream(info)|
    ensures r.Success? ==> r.value[..|Stream(info)|] == Stream(info)
  {
    if |Utf8(info.volume.name)| > 27 then Failure(VolumeNameTooLong)
    else if |Utf8(info.target.filename)| > 63 then Failure(FileNameTooLong)
    else Success(Fill(Stream(info), Zeros(Total(info))))
  }

  method Encode(info: Info) returns (r: Result<seq<byte>, EncodeError>)
    ensures r == EncodeSpec(info)
  {
    var total := 150 + ExtraLength(info.extras) + 4;
    var cursor := new Cursor(Zeros(total));
    WritePrologue(cursor, info, total);
    assert cursor.written == Prologue(info);

    var volName := Utf8(info.volume.name);
    if |volName| > 27 {
      return Failure(VolumeNameTooLong);
    }
    WriteVolumeFields(cursor, info);

    var fileName := Utf8(info.target.filename);
    if |fileName| > 63 {
      return Failure(FileNameTooLong);
    }
    WriteFileFields(cursor, info);
    WriteFixedTrailer(cursor);

    assert cursor.written == Header(info);
    WriteExtras(cursor, info.extras);
    WriteTerminator(cursor);
    var inner := cursor.IntoInner();
    r := Success(inner);
  }

  /** The sentinel extra after the loop. */
  method WriteTerminator(cursor: Cursor)
    requires cursor.Valid()
    modifies cursor
    ensures cursor.Valid() && cursor.init == old(cursor.init)
    ensures cursor.written == old(cursor.written) + Terminator()
  {
    ghost var start := cursor.written;
    cursor.WriteI16(-1);
    cursor.WriteU16(0);
    assert cursor.written == start + Terminator();
  }

  /** The loop over `info.extra`. */
  method WriteExtras(cursor: Cursor, extras: seq<Extra>)
    requires cursor.Valid()
    modifies cursor
    ensures cursor.Valid() && cursor.init == old(cursor.init)
    ensures cursor.written == old(cursor.written) + ExtrasBytes(extras)
  {
    ghost var start := cursor.written;
    for i := 0 to |extras|
      invariant cursor.Valid() && cursor.init == old(cursor.init)
      invariant cursor.written == start + ExtrasBytes(extras[..i])
    {
      WriteExtra(cursor, extras[i]);
      assert extras[..i + 1][..i] == extras[..i];
    }
    assert extras[..|extras|] == extras;
  }

  /** The length byte, name and padding writes for one name slot. */
  method WriteNameSlot(cursor: Cursor, name: seq<byte>, width: nat)
    requires cursor.Valid() && |name| <= width < 0x100
    modifies cursor
    ensures cursor.Valid() && cursor.init == old(cursor.init)
    ensures cursor.written == old(cursor.written) + NameSlot(name, width)
  {
    cursor.WriteU8(|name|);
    cursor.WriteAll(name);
    cursor.WriteAll(Zeros(width - |name|));
  }

  /** The body of the loop over `info.extra`. */
  method WriteExtra(cursor: Cursor, e: Extra)
    requires cursor.Valid()
    modifies cursor
    ensures cursor.Valid() && cursor.init == old(cursor.init)
    ensures cursor.written == old(cursor.written) + ExtraBytes(e)
  {
    cursor.WriteI16(e.tag);
    cursor.WriteU16(e.length);
    cursor.WriteAll(e.data);
    if e.length % 2 == 1 {
      cursor.WriteU8(0);
    }
  }

  method WritePrologue(cursor: Cursor, info: Info, total: nat)
    requires cursor.Valid() && total == Total(info)
    modifies cursor
    ensures cursor.Valid() && cursor.init == old(cursor.init)
    ensures cursor.written == old(cursor.written) + Prologue(info)
  {
    ghost var start := cursor.written;
    cursor.WriteU32(0);
    cursor.WriteU16(TruncateU16(total));
    cursor.WriteU16(info.version);
    cursor.WriteU16(info.target.kind.Code());
    assert cursor.written == start + Prologue(info);
  }

  method WriteVolumeFields(cursor: Cursor, info: Info)
    requires cursor.Valid() && |Utf8(info.volume.name)| <= 27
    modifies cursor
    ensures cursor.Valid() && cursor.init == old(cursor.init)
    ensures cursor.written == old(cursor.written) + VolumeFields(info)
  {
    ghost var start := cursor.written;
    WriteNameSlot(cursor, Utf8(info.volume.name), 27);
    cursor.WriteU32(info.volume.created);
    cursor.WriteAll(info.volume.signature.Bytes());
    cursor.WriteU16(info.volume.kind.Code());
    cursor.WriteU32(info.parent.id);
    assert cursor.written == start + VolumeFields(info);
  }

  method WriteFileFields(cursor: Cursor, info: Info)
    requires cursor.Valid() && |Utf8(info.target.filename)| <= 63
    modifies cursor
    ensures cursor.Valid() && cursor.init == old(cursor.init)
    ensures cursor.written == old(cursor.written) + FileFields(info)
  {
    ghost var start := cursor.written;
    WriteNameSlot(cursor, Utf8(info.target.filename), 63);
    cursor.WriteU32(info.target.id);
    cursor.WriteU32(info.target.created);
    assert cursor.written == start + FileFields(info);
  }

  method WriteFixedTrailer(cursor: Cursor)
    requires cursor.Valid()
    modifies cursor
    ensures cursor.Valid() && cursor.init == old(cursor.init)
    ensures cursor.written == old(cursor.written) + FixedTrailer()
  {
    ghost var start := cursor.written;
    cursor.WriteAll(Zeros(4));
    cursor.WriteAll(Zeros(4));
    assert cursor.written == start + (Zeros(4) + Zeros(4));
    cursor.WriteI16(-1);
    assert cursor.written == start + (Zeros(4) + Zeros(4) + BeI16(-1));
    cursor.WriteI16(-1);
    assert cursor.written == start + (Zeros(4) + Zeros(4) + BeI16(-1) + BeI16(-1));
    cursor.WriteU32(3330);
    assert cursor.written == start + (Zeros(4) + Zeros(4) + BeI16(-1) + BeI16(-1) + BeU32(3330));
    cursor.WriteU16(0);
    assert cursor.written == start + (Zeros(4) + Zeros(4) + BeI16(-1) + BeI16(-1) + BeU32(3330) + BeU16(0));
    cursor.WriteAll(Zeros(10));
    assert cursor.written == start + FixedTrailer();
  }
}
