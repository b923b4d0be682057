/** The in-memory description of a version-2 alias record (src/lib.rs
    `Info`, `Target`, `Volume`, `Parent`, `Extra`) and the small code
    mappings the encoder writes for its enumerations. */
module Alias {
  import opened Results
  import opened BigEndian
  import opened Unicode

  /** `TargetType`, written as its `#[repr(u16)]` discriminant. */
  datatype TargetType = File | Directory {
    function Code(): (c: u16)
      ensures TargetTypeOfCode(c) == Some(this)
    {
      match this
      case File => 0
      case Directory => 1
    }
  }

  function TargetTypeOfCode(c: u16): Option<TargetType>
  {
    if c == 0 then Some(File) else if c == 1 then Some(Directory) else None
  }

  /** `VolumeType`, discriminants 0 to 5 in declaration order. */
  datatype VolumeType = Local | Network | Floppy400 | Floppy800 | Floppy1400 | Other {
    function Code(): (c: u16)
      ensures c < 6
      ensures VolumeTypeOfCode(c) == Some(this)
    {
      match this
      case Local => 0
      case Network => 1
      case Floppy400 => 2
      case Floppy800 => 3
      case Floppy1400 => 4
      case Other => 5
    }
  }

  function VolumeTypeOfCode(c: u16): Option<VolumeType>
  {
    match c
    case 0 => Some(Local)
    case 1 => Some(Network)
    case 2 => Some(Floppy400)
    case 3 => Some(Floppy800)
    case 4 => Some(Floppy1400)
    case 5 => Some(Other)
    case _ => None
  }

  /** `VolumeSignature` and its `AsRef<str>` text. */
  datatype VolumeSignature = Bd | HPlus | Hx {
    function AsRef(): (s: string)
      ensures |s| == 2 && IsAscii(s)
      ensures SignatureOfText(s) == Some(this)
    {
      match this
      case Bd => "BD"
      case HPlus => "H+"
      case Hx => "HX"
    }

    /** `as_ref().as_bytes()`: exactly the two ASCII codes. */
    function Bytes(): (b: seq<byte>)
      ensures |b| == 2
      ensures b[0] == AsRef()[0] as int && b[1] == AsRef()[1] as int
    {
      AsciiEncodings(AsRef());
      Utf8(AsRef())
    }
  }

  function SignatureOfText(s: string): Option<VolumeSignature>
  {
    if s == "BD" then Some(Bd)
    else if s == "H+" then Some(HPlus)
    else if s == "HX" then Some(Hx)
    else None
  }

  /** The timestamps are held already converted to the alias epoch
      (seconds since 1904-01-01), the value `apple_date` returns. */
  datatype Target = Target(kind: TargetType, filename: string, id: u32, created: u32)

  datatype Volume = Volume(name: string, created: u32, signature: VolumeSignature, kind: VolumeType)

  datatype Parent = Parent(id: u32, name: string)

  /** An extra sub-record; `length` is declared separately from `data`, as
      in the source, and nothing forces the two to agree. */
  datatype Extra = Extra(tag: i16, length: u16, data: seq<byte>)

  datatype Info = Info(version: u16, target: Target, volume: Volume, parent: Parent, extras: seq<Extra>)

  /** Milliseconds from 1904-01-01 to 1970-01-01, negated (`APPLE_EPOCH`). */
  const AppleEpochMillis: int := -2082844800000

  /** An integer reading of `apple_date`: milliseconds since the Unix epoch
      to whole seconds since the alias epoch, rounded to the nearest second
      with halves rounded up, saturating at the u32 maximum as Rust's
      float-to-integer `as` does. */
  function AppleDate(unixMillis: nat): (r: u32)
    ensures var m := unixMillis - AppleEpochMillis;
      if m + 500 < 0x1_0000_0000 * 1000
      then r * 1000 - 500 <= m < r * 1000 + 500
      else r == 0xFFFF_FFFF
  {
    var seconds := (unixMillis - AppleEpochMillis + 500) / 1000;
    if seconds < 0x1_0000_0000 then seconds else 0xFFFF_FFFF
  }
}
