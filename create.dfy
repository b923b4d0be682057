/** `utf16be` and the pure part of `create`: turning the values `create`
    gathers from the file system into the extras and the record handed to
    `encode`. */
module Create {
  import opened Results
  import opened BigEndian
  import opened Unicode
  import opened Alias
  import opened Encoder
  import EncodeLayout

  /** Each code unit as two bytes, high byte first, in order. */
  function BeUnits(units: seq<u16>): seq<byte>
  {
    if units == [] then [] else BeUnits(units[..|units| - 1]) + BeU16(units[|units| - 1])
  }

  /** Reads byte pairs back into code units. */
  function UnitsOfBe(bytes: seq<byte>): seq<u16>
    requires |bytes| % 2 == 0
  {
    if bytes == [] then [] else UnitsOfBe(bytes[..|bytes| - 2]) + [FromBeU16(bytes[|bytes| - 2..])]
  }

  lemma {:induction false} BeUnitsLayout(units: seq<u16>)
    ensures |BeUnits(units)| == 2 * |units|
    ensures forall i :: 0 <= i < |units| ==>
      BeUnits(units)[2 * i] == units[i] / 0x100 && BeUnits(units)[2 * i + 1] == units[i] % 0x100
    decreases |units|
  {
    if units != [] {
      BeUnitsLayout(units[..|units| - 1]);
    }
  }

  lemma {:induction false} BeUnitsRoundTrip(units: seq<u16>)
    ensures |BeUnits(units)| % 2 == 0
    ensures UnitsOfBe(BeUnits(units)) == units
    decreases |units|
  {
    if units != [] {
      var init := units[..|units| - 1];
      var b := BeUnits(units);
      BeUnitsLayout(init);
      BeUnitsRoundTrip(init);
      assert b[..|b| - 2] == BeUnits(init);
      assert b[|b| - 2..] == BeU16(units[|units| - 1]);
      assert units == init + [units[|units| - 1]];
    }
  }

  /** `utf16be`: collect the UTF-16 units of `s`, then append each one's
      big-endian bytes. */
  method Utf16Be(s: string) returns (result: seq<byte>)
    ensures result == BeUnits(Utf16(s))
    ensures |result| == 2 * |Utf16(s)|
    ensures forall i :: 0 <= i < |Utf16(s)| ==>
      result[2 * i] == Utf16(s)[i] / 0x100 && result[2 * i + 1] == Utf16(s)[i] % 0x100
  {
    var b := Utf16(s);
    result := [];
    for i := 0 to |b|
      invariant result == BeUnits(b[..i])
    {
      result := result + BeU16(b[i]);
      assert b[..i + 1][..i] == b[..i];
    }
    assert b[..|b|] == b;
    BeUnitsLayout(b);
  }

  /** `utf16be` loses nothing: reading the pairs back and decoding them
      gives `s`. */
  lemma Utf16BeRoundTrip(s: string)
    ensures |BeUnits(Utf16(s))| % 2 == 0
    ensures DecodeUtf16(UnitsOfBe(BeUnits(Utf16(s)))) == Some(s)
  {
    BeUnitsRoundTrip(Utf16(s));
    Utf16RoundTrip(s);
  }

  /** A panic in `create`: `copy_from_slice` between slices of different
      lengths. */
  datatype CreateError = SliceLengthMismatch | EncodeFailed(reason: EncodeError)

  /** The tag 14 and 15 payload: a `2 + 2 * len` byte buffer, where `len`
      is the UTF-8 byte length of `name`; its first two bytes are `len as
      u16`, big-endian, and the rest is copied from `utf16be(name)`, which
      panics unless that has exactly `2 * len` bytes, that is, unless the
      name is ASCII. */
  function PrefixedUtf16(name: string): (r: Result<seq<byte>, CreateError>)
    ensures r.Success? <==> IsAscii(name)
    ensures r.Success? ==>
      && |r.value| == 2 + 2 * |name|
      && FromBeU16(r.value[..2]) == TruncateU16(|Utf8(name)|)
      && |r.value[2..]| % 2 == 0
      && DecodeUtf16(UnitsOfBe(r.value[2..])) == Some(name)
  {
    var len := |Utf8(name)|;
    var units := BeUnits(Utf16(name));
    BeUnitsLayout(Utf16(name));
    Utf16NoLongerThanUtf8(name);
    if |units| != 2 * len then Failure(SliceLengthMismatch)
    else
      AsciiEncodings(name);
      Utf16BeRoundTrip(name);
      var buffer := BeU16(TruncateU16(len)) + units;
      assert buffer[..2] == BeU16(TruncateU16(len)) && buffer[2..] == units;
      Success(buffer)
  }

  /** The values `create` reads from the file system and the host, already
      obtained: inode numbers, the target's kind and name, the two dates
      converted to the alias epoch, the parent's name, the volume's display
      name, and the volume and target paths as text. */
  datatype Gathered = Gathered(
    targetIsDir: bool,
    targetIno: nat,
    filename: string,
    targetCreated: u32,
    parentIno: nat,
    parentName: string,
    volumeName: string,
    volumeCreated: u32,
    volumePath: string,
    targetPath: string)

  /** The volume path is where `find_volume` stopped: an ancestor of the
      target path, so a prefix of its text. */
  predicate VolumeContainsTarget(g: Gathered)
  {
    g.volumePath <= g.targetPath
  }

  /** The six extras `create` pushes, in order: parent name (0), parent id
      (1), file name as length-prefixed UTF-16 (14), volume name likewise
      (15), the target path below the volume root (18) and the volume
      root path (19). Lengths are cast with `as u16`. */
  function BuildExtras(g: Gathered): (r: Result<seq<Extra>, CreateError>)
    requires VolumeContainsTarget(g)
    ensures r.Success? <==> IsAscii(g.filename) && IsAscii(g.volumeName)
  {
    Utf8OfPrefix(g.volumePath, g.targetPath);
    var parentName := Utf8(g.parentName);
    var parentId := TruncateU32(g.parentIno);
    match PrefixedUtf16(g.filename)
    case Failure(e) => Failure(e)
    case Success(file) =>
      match PrefixedUtf16(g.volumeName)
      case Failure(e) => Failure(e)
      case Success(vol) =>
        var volumePath := Utf8(g.volumePath);
        var below := Utf8(g.targetPath)[|volumePath|..];
        Success([
          Extra(0, TruncateU16(|parentName|), parentName),
          Extra(1, 4, BeU32(parentId)),
          Extra(14, TruncateU16(|file|), file),
          Extra(15, TruncateU16(|vol|), vol),
          Extra(18, TruncateU16(|below|), below),
          Extra(19, TruncateU16(|volumePath|), volumePath)])
  }

  /** What each extra carries. The tag 18 path is the target path with the
      volume path's bytes cut off the front (so it keeps its leading `/`
      unless the volume is `/` itself). */
  lemma BuildExtrasContents(g: Gathered)
    requires VolumeContainsTarget(g) && IsAscii(g.filename) && IsAscii(g.volumeName)
    ensures var es := BuildExtras(g).value;
      && |es| == 6
      && es[0].tag == 0 && es[1].tag == 1 && es[2].tag == 14
      && es[3].tag == 15 && es[4].tag == 18 && es[5].tag == 19
      && es[0].data == Utf8(g.parentName)
      && FromBeU32(es[1].data) == TruncateU32(g.parentIno)
      && es[2].data == PrefixedUtf16(g.filename).value
      && es[3].data == PrefixedUtf16(g.volumeName).value
      && es[4].data == Utf8(g.targetPath[|g.volumePath|..])
      && es[5].data == Utf8(g.volumePath)
  {
    Utf8OfPrefix(g.volumePath, g.targetPath);
  }

  /** The extras are well formed (each declared length is the data length)
      exactly when none of the lengths was truncated by `as u16`. */
  lemma BuildExtrasWellFormed(g: Gathered)
    requires VolumeContainsTarget(g) && IsAscii(g.filename) && IsAscii(g.volumeName)
    ensures ExtrasWellFormed(BuildExtras(g).value) <==>
      && |Utf8(g.parentName)| < 0x1_0000
      && 2 + 2 * |g.filename| < 0x1_0000
      && 2 + 2 * |g.volumeName| < 0x1_0000
      && |Utf8(g.targetPath)| - |Utf8(g.volumePath)| < 0x1_0000
      && |Utf8(g.volumePath)| < 0x1_0000
  {
    Utf8OfPrefix(g.volumePath, g.targetPath);
    var es := BuildExtras(g).value;
    if ExtrasWellFormed(es) {
      assert |es[0].data| == es[0].length;
      assert |es[2].data| == es[2].length;
      assert |es[3].data| == es[3].length;
      assert |es[4].data| == es[4].length;
      assert |es[5].data| == es[5].length;
    }
  }

  /** The record `create` hands to `encode`: version 2, target type from
      `is_dir`, inode numbers cast with `as u32`, signature `H+`, volume
      type `Local` for the path `/` and `Other` otherwise. */
  function AssembleInfo(g: Gathered): (r: Result<Info, CreateError>)
    requires VolumeContainsTarget(g)
    ensures r.Success? <==> BuildExtras(g).Success?
    ensures r.Success? ==> r.value.extras == BuildExtras(g).value && r.value.version == 2
    ensures r.Success? ==>
      && (r.value.target.kind == Directory <==> g.targetIsDir)
      && r.value.target.id == TruncateU32(g.targetIno)
      && r.value.parent.id == TruncateU32(g.parentIno)
      && r.value.target.filename == g.filename
      && r.value.target.created == g.targetCreated
      && r.value.parent.name == g.parentName
      && r.value.volume.name == g.volumeName
      && r.value.volume.created == g.volumeCreated
      && r.value.volume.signature == HPlus
      && r.value.volume.kind == (if g.volumePath == "/" then Local else Other)
  {
    match BuildExtras(g)
    case Failure(e) => Failure(e)
    case Success(extras) =>
      var target := Target(if g.targetIsDir then Directory else File, g.filename,
                           TruncateU32(g.targetIno), g.targetCreated);
      var parent := Parent(TruncateU32(g.parentIno), g.parentName);
      var volume := Volume(g.volumeName, g.volumeCreated, HPlus,
                           if g.volumePath == "/" then Local else Other);
      Success(Info(2, target, volume, parent, extras))
  }

  /** `create` after the file-system reads: assemble, then encode. */
  function CreateRecord(g: Gathered): (r: Result<seq<byte>, CreateError>)
    requires VolumeContainsTarget(g)
  {
    match AssembleInfo(g)
    case Failure(e) => Failure(e)
    case Success(info) =>
      match EncodeSpec(info)
      case Failure(e) => Failure(EncodeFailed(e))
      case Success(bytes) => Success(bytes)
  }

  /** `create` succeeds exactly for ASCII file and volume names that fit
      their slots; when no length is truncated, the record is exactly
      `total` bytes and ends with the terminator. */
  lemma CreateRecordSucceeds(g: Gathered)
    requires VolumeContainsTarget(g)
    ensures CreateRecord(g).Success? <==>
      IsAscii(g.filename) && IsAscii(g.volumeName) && |g.filename| <= 63 && |g.volumeName| <= 27
    ensures (CreateRecord(g).Success? && |Utf8(g.parentName)| < 0x1_0000
             && |Utf8(g.targetPath)| < 0x1_0000) ==>
      var info := AssembleInfo(g).value;
      var r := CreateRecord(g).value;
      && |r| == Total(info)
      && r[|r| - 4..] == [0xFF, 0xFF, 0x00, 0x00]
  {
    if IsAscii(g.filename) && IsAscii(g.volumeName) {
      AsciiEncodings(g.filename);
      AsciiEncodings(g.volumeName);
      var info := AssembleInfo(g).value;
      if NamesFit(info) && |Utf8(g.parentName)| < 0x1_0000 && |Utf8(g.targetPath)| < 0x1_0000 {
        Utf8OfPrefix(g.volumePath, g.targetPath);
        BuildExtrasWellFormed(g);
        EncodeLayout.EncodeLength(info);
        EncodeLayout.EncodeTerminator(info);
      }
    }
  }
}
