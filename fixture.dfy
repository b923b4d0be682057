/** The fixture test of src/lib.rs: one record and the bytes it must
    encode to (the test's base64 `FIXTURE`, decoded). */
module Fixture {
  import opened Results
  import opened BigEndian
  import opened Unicode
  import opened Alias
  import opened Encoder
  import EncodeLayout

  /** Extra 0 of the fixture: the parent name. */
  function FixtureExtra0(): Extra
  {
    Extra(0, 11, Utf8(".background"))
  }

  /** Extra 1 of the fixture: the parent id. */
  function FixtureExtra1(): Extra
  {
    Extra(1, 4, [0, 0, 0, 19])
  }

  /** Extra 2 of the fixture: tag 2. */
  function FixtureExtra2(): Extra
  {
    Extra(2, 36, [
        84, 101, 115, 116, 32, 84, 105, 116, 108, 101, 58, 46, 98, 97, 99, 107, 103, 114, 111,
        117, 110, 100, 58, 0, 84, 101, 115, 116, 66, 107, 103, 46, 116, 105, 102, 102])
  }

  /** Extra 3 of the fixture: the volume name as length-prefixed UTF-16. */
  function FixtureExtra3(): Extra
  {
    Extra(15, 22, [
        0, 10, 0, 84, 0, 101, 0, 115, 0, 116, 0, 32, 0, 84, 0, 105, 0, 116, 0, 108, 0, 101])
  }

  /** Extra 4 of the fixture: the target path below the volume root. */
  function FixtureExtra4(): Extra
  {
    Extra(18, 25, [
        47, 46, 98, 97, 99, 107, 103, 114, 111, 117, 110, 100, 47, 84, 101, 115, 116, 66, 107,
        103, 46, 116, 105, 102, 102])
  }

  /** Extra 5 of the fixture: the volume root path. */
  function FixtureExtra5(): Extra
  {
    Extra(19, 19, [
        47, 86, 111, 108, 117, 109, 101, 115, 47, 84, 101, 115, 116, 32, 84, 105, 116, 108, 101])
  }

  /** The extras of the fixture record, in order. */
  function FixtureExtraList(): seq<Extra>
  {
    [FixtureExtra0()] + [FixtureExtra1()] + [FixtureExtra2()] + [FixtureExtra3()] + [FixtureExtra4()]
      + [FixtureExtra5()]
  }

  function FixtureInfo(): Info
  {
    Info(
      2,
      Target(File, "TestBkg.tiff", 20, AppleDate(1388686808000)),
      Volume("Test Title", AppleDate(1388686804000), HPlus, Other),
      Parent(19, ".background"),
      FixtureExtraList())
  }

  /** Bytes 0..10: four reserved zeros, total 298, version 2, target type 0
      (file). */
  function FixturePrologue(): seq<byte>
  {
    [0x00, 0x00, 0x00, 0x00] + [0x01, 0x2A] + [0x00, 0x02] + [0x00, 0x00]
  }

  /** Bytes 10..50: the volume name slot (length 10, "Test Title", 17
      zeros), the volume date, `H+`, volume type 5 (other), parent id 19. */
  function FixtureVolumeFields(): seq<byte>
  {
    [0x0A] + [0x54, 0x65, 0x73, 0x74, 0x20, 0x54, 0x69, 0x74, 0x6C, 0x65] + Zeros(17)
      + [0xCE, 0xEB, 0x5E, 0x54] + [0x48, 0x2B] + [0x00, 0x05] + [0x00, 0x00, 0x00, 0x13]
  }

  /** Bytes 50..122: the file name slot (length 12, "TestBkg.tiff", 51
      zeros), target id 20 and the target date. */
  function FixtureFileFields(): seq<byte>
  {
    [0x0C] + [0x54, 0x65, 0x73, 0x74, 0x42, 0x6B, 0x67, 0x2E, 0x74, 0x69, 0x66, 0x66] + Zeros(51)
      + [0x00, 0x00, 0x00, 0x14] + [0xCE, 0xEB, 0x5E, 0x58]
  }

  /** Bytes 122..150: type and creator codes, nlvl from and to, volume
      attributes, file-system id, reserved. */
  function FixtureTrailer(): seq<byte>
  {
    Zeros(4) + Zeros(4) + [0xFF, 0xFF] + [0xFF, 0xFF] + [0x00, 0x00, 0x0D, 0x02] + [0x00, 0x00]
      + Zeros(10)
  }

  /** Bytes 150..166: extra 0 (tag, length 11, ".background", pad). */
  function FixtureExtra0Bytes(): seq<byte>
  {
    [0x00, 0x00] + [0x00, 0x0B] + [0x2E, 0x62, 0x61, 0x63, 0x6B, 0x67, 0x72, 0x6F, 0x75, 0x6E, 0x64] + [0x00]
  }

  /** Bytes 166..174: extra 1 (tag, length 4, parent id 19). */
  function FixtureExtra1Bytes(): seq<byte>
  {
    [0x00, 0x01] + [0x00, 0x04] + [0x00, 0x00, 0x00, 0x13] + []
  }

  /** Bytes 174..214: extra 2 (tag, length 36, data). */
  function FixtureExtra2Bytes(): seq<byte>
  {
    [0x00, 0x02] + [0x00, 0x24]
      + [0x54, 0x65, 0x73, 0x74, 0x20, 0x54, 0x69, 0x74, 0x6C, 0x65, 0x3A, 0x2E,
       0x62, 0x61, 0x63, 0x6B, 0x67, 0x72, 0x6F, 0x75, 0x6E, 0x64, 0x3A, 0x00,
       0x54, 0x65, 0x73, 0x74, 0x42, 0x6B, 0x67, 0x2E, 0x74, 0x69, 0x66, 0x66]
      + []
  }

  /** Bytes 214..240: extra 15 (tag, length 22, the volume name as
      length-prefixed UTF-16). */
  function FixtureExtra3Bytes(): seq<byte>
  {
    [0x00, 0x0F] + [0x00, 0x16]
      + [0x00, 0x0A, 0x00, 0x54, 0x00, 0x65, 0x00, 0x73, 0x00, 0x74, 0x00, 0x20,
       0x00, 0x54, 0x00, 0x69, 0x00, 0x74, 0x00, 0x6C, 0x00, 0x65]
      + []
  }

  /** Bytes 240..270: extra 18 (tag, length 25, the target path below the
      volume root, pad). */
  function FixtureExtra4Bytes(): seq<byte>
  {
    [0x00, 0x12] + [0x00, 0x19]
      + [0x2F, 0x2E, 0x62, 0x61, 0x63, 0x6B, 0x67, 0x72, 0x6F, 0x75, 0x6E, 0x64,
       0x2F, 0x54, 0x65, 0x73, 0x74, 0x42, 0x6B, 0x67, 0x2E, 0x74, 0x69, 0x66,
       0x66]
      + [0x00]
  }

  /** Bytes 270..294: extra 19 (tag, length 19, the volume root path, pad). */
  function FixtureExtra5Bytes(): seq<byte>
  {
    [0x00, 0x13] + [0x00, 0x13]
      + [0x2F, 0x56, 0x6F, 0x6C, 0x75, 0x6D, 0x65, 0x73, 0x2F, 0x54, 0x65, 0x73,
       0x74, 0x20, 0x54, 0x69, 0x74, 0x6C, 0x65]
      + [0x00]
  }

  /** Bytes 294..298: the sentinel. */
  function FixtureTerminator(): seq<byte>
  {
    [0xFF, 0xFF] + [0x00, 0x00]
  }

  /** The 298 bytes of `FIXTURE`, piece by piece. */
  function FixtureBytes(): seq<byte>
  {
    (FixturePrologue() + FixtureVolumeFields() + FixtureFileFields() + FixtureTrailer())
      + (FixtureExtra0Bytes() + FixtureExtra1Bytes() + FixtureExtra2Bytes()
         + FixtureExtra3Bytes() + FixtureExtra4Bytes() + FixtureExtra5Bytes())
      + FixtureTerminator()
  }

  /** The two creation dates of the fixture in the alias epoch. */
  lemma FixtureDates()
    ensures AppleDate(1388686804000) == 3471531604 == 0xCEEB5E54
    ensures AppleDate(1388686808000) == 3471531608 == 0xCEEB5E58
  {
  }

  /** The UTF-8 bytes of the fixture's names. */
  lemma VolumeNameBytes()
    ensures Utf8("Test Title") == [0x54, 0x65, 0x73, 0x74, 0x20, 0x54, 0x69, 0x74, 0x6C, 0x65]
  {
    AsciiEncodings("Test Title");
  }

  lemma FileNameBytes()
    ensures Utf8("TestBkg.tiff") == [0x54, 0x65, 0x73, 0x74, 0x42, 0x6B, 0x67, 0x2E, 0x74, 0x69, 0x66, 0x66]
  {
    AsciiEncodings("TestBkg.tiff");
  }

  lemma ParentNameBytes()
    ensures Utf8(".background") == [0x2E, 0x62, 0x61, 0x63, 0x6B, 0x67, 0x72, 0x6F, 0x75, 0x6E, 0x64]
  {
    AsciiEncodings(".background");
  }

  /** Each extra of the fixture is written as its piece of the bytes. */
  lemma FixtureExtra0Written()
    ensures ExtraBytes(FixtureExtra0()) == FixtureExtra0Bytes()
  {
    ParentNameBytes();
    assert BeI16(0) == [0x00, 0x00];
    assert BeU16(11) == [0x00, 0x0B];
  }

  lemma FixtureExtra1Written()
    ensures ExtraBytes(FixtureExtra1()) == FixtureExtra1Bytes()
  {
    assert BeI16(1) == [0x00, 0x01];
    assert BeU16(4) == [0x00, 0x04];
  }

  lemma FixtureExtra2Written()
    ensures ExtraBytes(FixtureExtra2()) == FixtureExtra2Bytes()
  {
    assert BeI16(2) == [0x00, 0x02];
    assert BeU16(36) == [0x00, 0x24];
  }

  lemma FixtureExtra3Written()
    ensures ExtraBytes(FixtureExtra3()) == FixtureExtra3Bytes()
  {
    assert BeI16(15) == [0x00, 0x0F];
    assert BeU16(22) == [0x00, 0x16];
  }

  lemma FixtureExtra4Written()
    ensures ExtraBytes(FixtureExtra4()) == FixtureExtra4Bytes()
  {
    assert BeI16(18) == [0x00, 0x12];
    assert BeU16(25) == [0x00, 0x19];
  }

  lemma FixtureExtra5Written()
    ensures ExtraBytes(FixtureExtra5()) == FixtureExtra5Bytes()
  {
    assert BeI16(19) == [0x00, 0x13];
    assert BeU16(19) == [0x00, 0x13];
  }

  /** The bytes and the size of any six extras, extra by extra. */
  lemma SixExtrasBytes(e0: Extra, e1: Extra, e2: Extra, e3: Extra, e4: Extra, e5: Extra)
    ensures ExtrasBytes([e0] + [e1] + [e2] + [e3] + [e4] + [e5]) == ExtraBytes(e0) + ExtraBytes(e1)
      + ExtraBytes(e2) + ExtraBytes(e3) + ExtraBytes(e4) + ExtraBytes(e5)
  {
    assert [e0][..0] == [];
    var l2 := [e0] + [e1];
    var l3 := l2 + [e2];
    var l4 := l3 + [e3];
    var l5 := l4 + [e4];
    EncodeLayout.ExtrasAppend([e0], e1);
    EncodeLayout.ExtrasAppend(l2, e2);
    EncodeLayout.ExtrasAppend(l3, e3);
    EncodeLayout.ExtrasAppend(l4, e4);
    EncodeLayout.ExtrasAppend(l5, e5);
  }

  lemma SixExtrasLength(e0: Extra, e1: Extra, e2: Extra, e3: Extra, e4: Extra, e5: Extra)
    ensures ExtraLength([e0] + [e1] + [e2] + [e3] + [e4] + [e5]) == ExtraSize(e0) + ExtraSize(e1)
      + ExtraSize(e2) + ExtraSize(e3) + ExtraSize(e4) + ExtraSize(e5)
  {
    assert [e0][..0] == [];
    var l2 := [e0] + [e1];
    var l3 := l2 + [e2];
    var l4 := l3 + [e3];
    var l5 := l4 + [e4];
    EncodeLayout.ExtrasAppend([e0], e1);
    EncodeLayout.ExtrasAppend(l2, e2);
    EncodeLayout.ExtrasAppend(l3, e3);
    EncodeLayout.ExtrasAppend(l4, e4);
    EncodeLayout.ExtrasAppend(l5, e5);
  }

  /** Any six extras whose data have their declared lengths are well formed. */
  lemma SixWellFormed(e0: Extra, e1: Extra, e2: Extra, e3: Extra, e4: Extra, e5: Extra)
    requires |e0.data| == e0.length && |e1.data| == e1.length && |e2.data| == e2.length
    requires |e3.data| == e3.length && |e4.data| == e4.length && |e5.data| == e5.length
    ensures ExtrasWellFormed([e0] + [e1] + [e2] + [e3] + [e4] + [e5])
  {
    var es := [e0] + [e1] + [e2] + [e3] + [e4] + [e5];
    assert es == [e0, e1, e2, e3, e4, e5];
  }

  /** The six extras are well formed and take 144 bytes. */
  lemma FixtureExtrasSize()
    ensures ExtrasWellFormed(FixtureExtraList())
    ensures ExtraLength(FixtureExtraList()) == 144
  {
    ParentNameBytes();
    var e0, e1, e2 := FixtureExtra0(), FixtureExtra1(), FixtureExtra2();
    var e3, e4, e5 := FixtureExtra3(), FixtureExtra4(), FixtureExtra5();
    SixExtrasLength(e0, e1, e2, e3, e4, e5);
    SixWellFormed(e0, e1, e2, e3, e4, e5);
  }

  /** The six extras are written as bytes 150..294 of the fixture. */
  lemma FixtureExtrasWritten()
    ensures ExtrasBytes(FixtureExtraList()) == FixtureExtra0Bytes() + FixtureExtra1Bytes()
      + FixtureExtra2Bytes() + FixtureExtra3Bytes() + FixtureExtra4Bytes() + FixtureExtra5Bytes()
  {
    SixExtrasBytes(FixtureExtra0(), FixtureExtra1(), FixtureExtra2(), FixtureExtra3(), FixtureExtra4(), FixtureExtra5());
    FixtureExtra0Written();
    FixtureExtra1Written();
    FixtureExtra2Written();
    FixtureExtra3Written();
    FixtureExtra4Written();
    FixtureExtra5Written();
  }

  /** The header pieces of the fixture record, as written. */
  lemma FixturePrologueWritten()
    ensures Total(FixtureInfo()) == 298
    ensures Prologue(FixtureInfo()) == FixturePrologue()
  {
    FixtureExtrasSize();
    assert BeU32(0) == [0x00, 0x00, 0x00, 0x00];
    assert TruncateU16(298) == 298;
    assert BeU16(298) == [0x01, 0x2A];
    assert BeU16(2) == [0x00, 0x02];
    assert BeU16(File.Code()) == [0x00, 0x00];
  }

  /** The two name slots of the fixture. */
  lemma FixtureVolumeSlot()
    ensures |Utf8("Test Title")| <= 27
    ensures NameSlot(Utf8("Test Title"), 27)
      == [0x0A] + [0x54, 0x65, 0x73, 0x74, 0x20, 0x54, 0x69, 0x74, 0x6C, 0x65] + Zeros(17)
  {
    VolumeNameBytes();
  }

  lemma FixtureFileSlot()
    ensures |Utf8("TestBkg.tiff")| <= 63
    ensures NameSlot(Utf8("TestBkg.tiff"), 63)
      == [0x0C] + [0x54, 0x65, 0x73, 0x74, 0x42, 0x6B, 0x67, 0x2E, 0x74, 0x69, 0x66, 0x66] + Zeros(51)
  {
    FileNameBytes();
  }

  /** The volume fields of any record with the fixture's volume and parent. */
  lemma VolumeFieldsOf(info: Info)
    requires |Utf8(info.volume.name)| <= 27
    requires NameSlot(Utf8(info.volume.name), 27)
      == [0x0A] + [0x54, 0x65, 0x73, 0x74, 0x20, 0x54, 0x69, 0x74, 0x6C, 0x65] + Zeros(17)
    requires info.volume.created == 0xCEEB5E54 && info.volume.signature == HPlus
    requires info.volume.kind == Other && info.parent.id == 19
    ensures VolumeFields(info) == FixtureVolumeFields()
  {
    assert HPlus.Bytes() == [0x48, 0x2B];
    assert BeU32(0xCEEB5E54) == [0xCE, 0xEB, 0x5E, 0x54];
    assert BeU16(Other.Code()) == [0x00, 0x05];
    assert BeU32(19) == [0x00, 0x00, 0x00, 0x13];
  }

  lemma FixtureVolumeFieldsWritten()
    ensures |Utf8(FixtureInfo().volume.name)| <= 27
    ensures VolumeFields(FixtureInfo()) == FixtureVolumeFields()
  {
    FixtureVolumeSlot();
    FixtureDates();
    VolumeFieldsOf(FixtureInfo());
  }

  /** The file fields of any record with the fixture's target. */
  lemma FileFieldsOf(info: Info)
    requires |Utf8(info.target.filename)| <= 63
    requires NameSlot(Utf8(info.target.filename), 63)
      == [0x0C] + [0x54, 0x65, 0x73, 0x74, 0x42, 0x6B, 0x67, 0x2E, 0x74, 0x69, 0x66, 0x66] + Zeros(51)
    requires info.target.id == 20 && info.target.created == 0xCEEB5E58
    ensures FileFields(info) == FixtureFileFields()
  {
    assert BeU32(20) == [0x00, 0x00, 0x00, 0x14];
    assert BeU32(0xCEEB5E58) == [0xCE, 0xEB, 0x5E, 0x58];
  }

  lemma FixtureFileFieldsWritten()
    ensures |Utf8(FixtureInfo().target.filename)| <= 63
    ensures FileFields(FixtureInfo()) == FixtureFileFields()
  {
    FixtureFileSlot();
    FixtureDates();
    FileFieldsOf(FixtureInfo());
  }

  lemma FixtureTrailerWritten()
    ensures FixedTrailer() == FixtureTrailer()
    ensures Terminator() == FixtureTerminator()
  {
    assert BeI16(-1) == [0xFF, 0xFF];
    assert BeU32(3330) == [0x00, 0x00, 0x0D, 0x02];
    assert BeU16(0) == [0x00, 0x00];
  }

  /** `encode` reproduces the fixture byte for byte. */
  lemma FixtureEncodes()
    ensures EncodeSpec(FixtureInfo()) == Success(FixtureBytes())
  {
    var info := FixtureInfo();
    FixturePrologueWritten();
    FixtureVolumeFieldsWritten();
    FixtureFileFieldsWritten();
    FixtureTrailerWritten();
    FixtureExtrasSize();
    FixtureExtrasWritten();
    EncodeLayout.EncodeLength(info);
    assert Header(info) == FixturePrologue() + FixtureVolumeFields() + FixtureFileFields() + FixtureTrailer();
    assert Stream(info) == FixtureBytes();
  }
}
