# macos-alias: a verified model of the alias record encoder

macos-alias builds the binary "alias" records that the macOS Finder uses to
point at a file or folder. For example, a disk-image background picture is
stored in `.DS_Store` as an alias. The core of the library is `src/lib.rs`.
This project models the following parts of it in Dafny:

- the record types (`Info`, `Target`, `Volume`, `Parent`, `Extra`) and the
  codes written for the enumerations `TargetType`, `VolumeType` and
  `VolumeSignature`;
- `encode`, the serialiser. It writes a version-2 record through a
  `Cursor<Vec<u8>>` over a zeroed buffer of `total` bytes. The record is
  a 150-byte fixed header, then the list of "extra" sub-records (tag,
  length, data, and a pad byte when the length is odd), then the
  terminator extra `FF FF 00 00`;
- `find_volume`, which walks from the target up through its parents and
  stops at the last directory still on the same device;
- `utf16be`, which gives the big-endian UTF-16 bytes of a string;
- the pure part of `create`: the six extras it builds from the values it
  reads from the file system, and the record it hands to `encode`;
- the unit test that encodes a fixed record and compares the result with a
  stored fixture.

Module layout:

| file | module | contents |
|---|---|---|
| `results.dfy` | `Results` | `Option` and `Result` |
| `big_endian.dfy` | `BigEndian` | fixed-width integers, Rust's `as` truncation, big-endian bytes and their decoders |
| `unicode.dfy` | `Unicode` | UTF-8 (`as_bytes`, `len`) and UTF-16 (`encode_utf16`) of a string, and a decoder for each |
| `alias.dfy` | `Alias` | record datatypes, enumeration codes, `apple_date` |
| `cursor.dfy` | `Cursors` | `Cursor<Vec<u8>>` as a class: overwrite in place, grow past the end |
| `encoder.dfy` | `Encoder` | `EncodeSpec` (the pure result of `encode`) and the imperative `Encode`, which is proved equal to it |
| `layout.dfy` | `EncodeLayout` | the record's layout offset by offset, and its length |
| `volume_locator.dfy` | `VolumeLocator` | `find_volume` as a loop, its recursive reading, and what it finds |
| `create.dfy` | `Create` | `utf16be`, the extras of `create`, and the record it produces |
| `fixture.dfy` | `Fixture` | the unit test's record and its expected bytes |

The file system is a map from paths (sequences of components) to
`(dev, ino)` pairs. A path missing from the map is an I/O error.
Timestamps are carried already converted to seconds since 1904-01-01, the
value `apple_date` returns.

## Model

| member | source | states |
|---|---|---|
| Alias.TargetType.Code | src/lib.rs:28-32 | the `repr(u16)` code of a target type; decoding the code gives the type back |
| Alias.VolumeType.Code | src/lib.rs:34-43 | codes 0 to 5 in declaration order; each code is below 6 and decodes back to its type |
| Alias.VolumeSignature.AsRef | src/lib.rs:52-60 | the signature text is two ASCII characters and reads back as the same signature |
| Alias.VolumeSignature.Bytes | src/lib.rs:137-138 | the bytes written for the signature are exactly its two ASCII codes |
| Alias.AppleDate | src/lib.rs:95-100 | Unix milliseconds become alias-epoch seconds rounded to the nearest second, saturating at the u32 maximum |
| BigEndian.TruncateU16 | src/lib.rs:118 | `as u16` keeps a value below 2^16 and otherwise differs from it by a multiple of 2^16 |
| BigEndian.TruncateU32 | src/lib.rs:248 | `as u32` keeps a value below 2^32 and otherwise differs from it by a multiple of 2^32 |
| BigEndian.Zeros | src/lib.rs:112 | `vec![0; n]` has n zero bytes |
| BigEndian.BeU16 | src/lib.rs:118-121 | `write_u16::<BigEndian>` writes two bytes that decode back to the value |
| BigEndian.BeI16 | src/lib.rs:165-166 | `write_i16::<BigEndian>` writes two two's-complement bytes that decode back to the value |
| BigEndian.BeU32 | src/lib.rs:116 | `write_u32::<BigEndian>` writes four bytes that decode back to the value |
| BigEndian.BeU16OfDecoded | src/lib.rs:118-121 | every byte pair is the encoding of the u16 it decodes to |
| BigEndian.BeI16OfDecoded | src/lib.rs:165-166 | every byte pair is the encoding of the i16 it decodes to |
| BigEndian.BeU32OfDecoded | src/lib.rs:116 | every four-byte group is the encoding of the u32 it decodes to |
| Unicode.Utf8Char | src/lib.rs:123 | one byte below U+0080, two below U+0800, three below U+10000, four above; a single byte equals the code, a longer form has a lead byte of its length's shape and continuation bytes |
| Unicode.Utf8CharRoundTrip | src/lib.rs:123 | the bytes of one character, followed by anything, decode back to that character and their count |
| Unicode.Utf8RoundTrip | src/lib.rs:123 | decoding the UTF-8 bytes of a string gives the string back |
| Unicode.Utf16Char | src/lib.rs:222 | one or two units per character; a single unit, equal to the code, exactly inside the Basic Multilingual Plane |
| Unicode.Utf8Append | src/lib.rs:322 | the UTF-8 bytes of a concatenation are the concatenation of the bytes |
| Unicode.Utf8OfPrefix | src/lib.rs:320-322 | the bytes of a string prefix are a prefix of the bytes, and cutting them off leaves the bytes of the rest |
| Unicode.Utf16NoLongerThanUtf8 | src/lib.rs:300-303 | a string has no more UTF-16 units than UTF-8 bytes, with equality exactly when it is ASCII |
| Unicode.AsciiEncodings | src/lib.rs:300-303 | for ASCII text both encodings have one element per character, equal to its code |
| Unicode.Utf16RoundTrip | src/lib.rs:222 | decoding the UTF-16 units of a string gives the string back |
| Cursors.OverwriteAt | src/lib.rs:114-189 | a write at `pos` leaves the vector as long as the larger of its old length and the end of the write; the written range holds the bytes, the rest keeps its old bytes, and a gap past the old end reads as zeros |
| Cursors.FillAt | src/lib.rs:112-114 | a vector written from position 0 holds the written bytes, then the rest of the initial vector; it is as long as the longer of the two |
| Cursors.FillOverwrite | src/lib.rs:114-189 | writing at the end of what was written extends the written stream |
| Cursors.Cursor.constructor | src/lib.rs:114 | `Cursor::new` starts at position 0 over the given vector |
| Cursors.Cursor.WriteAll | src/lib.rs:134-135 | `write_all` overwrites from the position, growing the vector if needed, and advances the position by the length |
| Cursors.Cursor.WriteU8 | src/lib.rs:131 | `write_u8` writes one byte at the position and advances by one |
| Cursors.Cursor.WriteU16 | src/lib.rs:118-121 | `write_u16` writes the big-endian pair and advances by two |
| Cursors.Cursor.WriteI16 | src/lib.rs:165-166 | `write_i16` writes the big-endian pair and advances by two |
| Cursors.Cursor.WriteU32 | src/lib.rs:116 | `write_u32` writes the big-endian quadruple and advances by four |
| Cursors.Cursor.IntoInner | src/lib.rs:189 | `into_inner` returns the initial vector with the written stream laid over it from position 0 |
| Encoder.NameSlot | src/lib.rs:131-135 | a name slot is a length byte, the name and zeros, width + 1 bytes in all |
| Encoder.EncodeSpec | src/lib.rs:102-190 | `encode` fails exactly when a name is too long, with the volume check first; otherwise its result has at least `total` bytes and begins with the written stream |
| Encoder.Encode | src/lib.rs:102-190 | the cursor-writing `encode` returns exactly `EncodeSpec` |
| Encoder.WritePrologue | src/lib.rs:114-121 | writes the four reserved bytes, `total as u16`, the version and the target type |
| Encoder.WriteNameSlot | src/lib.rs:131-135 | writes the length byte, the name bytes and the padding |
| Encoder.WriteVolumeFields | src/lib.rs:131-140 | writes the volume name slot, volume date, signature, volume type and parent id |
| Encoder.WriteFileFields | src/lib.rs:149-154 | writes the file name slot, target id and target date |
| Encoder.WriteFixedTrailer | src/lib.rs:156-176 | writes the type and creator codes, the nlvl fields, the volume attributes, the file-system id and the reserved zeros |
| Encoder.WriteExtra | src/lib.rs:178-184 | writes one extra's tag, declared length, data, and a pad byte when the length is odd |
| Encoder.WriteExtras | src/lib.rs:177-185 | the loop writes the extras in input order |
| Encoder.WriteTerminator | src/lib.rs:187-188 | writes the sentinel extra, tag -1 and length 0 |
| EncodeLayout.HeaderLength | src/lib.rs:103 | the fixed header is 150 bytes: 10 + 40 + 72 + 28 |
| EncodeLayout.ExtrasBytesLength | src/lib.rs:104-108 | when every declared length is the data length, the extras take exactly the bytes the `extra_length` sum counts |
| EncodeLayout.ExtrasAppend | src/lib.rs:104-108 | one more extra appends its bytes and adds its size to the sum |
| EncodeLayout.ExtrasBytesPrefix | src/lib.rs:177-185 | the bytes of the first k extras begin the bytes of all of them |
| EncodeLayout.EncodeLength | src/lib.rs:103-112 | when the names fit and the extras are well formed, the result is exactly the written stream and has exactly `total` = 150 + extras + 4 bytes |
| EncodeLayout.EncodedRange | src/lib.rs:112-189 | every byte range of the written stream reads the same in the result, whatever the extras |
| EncodeLayout.HeaderPieces | src/lib.rs:114-176 | the four header parts sit at offsets 0, 10, 50 and 122 of the result |
| EncodeLayout.PrologueFields | src/lib.rs:116-121 | the prologue holds zeros, the total, the version and the target type code, field by field |
| EncodeLayout.EncodePrologue | src/lib.rs:116-121 | bytes 0..10 of the result: four zeros, `total as u16`, version and target type, big-endian |
| EncodeLayout.NameSlotAt | src/lib.rs:131-135 | a name slot placed at an offset holds the length byte, the name, then zeros |
| EncodeLayout.EncodeVolumeFields | src/lib.rs:123-140 | bytes 10..50: volume name length, name, zero padding to 27, volume date, signature `as_ref` bytes, volume type, parent id |
| EncodeLayout.EncodeFileFields | src/lib.rs:142-154 | bytes 50..122: file name length, name, zero padding to 63, target id, target date |
| EncodeLayout.FixedTrailerFields | src/lib.rs:156-176 | the trailer's constant fields, one by one |
| EncodeLayout.EncodeFixedTrailer | src/lib.rs:156-176 | bytes 122..150: eight zeros, FF FF FF FF, 00 00 0D 02, 00 00 and ten zeros |
| EncodeLayout.ExtraRecordLayout | src/lib.rs:177-185 | one extra record: tag, declared length, data, and a zero pad exactly when the length is odd |
| EncodeLayout.ExtrasPlaced | src/lib.rs:177-185 | the extras' bytes follow the 150-byte header in the result |
| EncodeLayout.ExtraWithin | src/lib.rs:177-185 | extra k starts after the sizes of the extras before it |
| EncodeLayout.EncodeExtraAt | src/lib.rs:104-108 | extra k is written at offset 150 plus the sizes of the extras before it, as the sum counts them |
| EncodeLayout.EncodeTerminator | src/lib.rs:187-189 | with well-formed extras the result ends with FF FF 00 00 |
| VolumeLocator.Parent | src/lib.rs:201 | only the root has no parent; a parent is one component shorter and a prefix |
| VolumeLocator.FindVolume | src/lib.rs:192-219 | the loop returns exactly what the recursive walk returns |
| VolumeLocator.WalkFindsVolumeRoot | src/lib.rs:192-219 | the walk returns v exactly when every step from the start up to v moves to a readable parent on the same device with a different inode, and the walk stops at v |
| VolumeLocator.WalkStaysOnDevice | src/lib.rs:204-206 | the result is an ancestor of the start, and every path between them is on the starting device |
| VolumeLocator.WalkFailure | src/lib.rs:202 | an error means the walk reached a path whose parent's metadata could not be read |
| VolumeLocator.WalkIdempotent | src/lib.rs:192-219 | walking again from the result finds the result |
| Create.BeUnitsLayout | src/lib.rs:224-226 | each unit becomes two bytes, high byte first, in order |
| Create.BeUnitsRoundTrip | src/lib.rs:224-226 | reading the byte pairs back gives the units |
| Create.Utf16Be | src/lib.rs:221-228 | `utf16be` returns two bytes per UTF-16 unit, high byte first |
| Create.Utf16BeRoundTrip | src/lib.rs:221-228 | the bytes of `utf16be` decode back to the string |
| Create.PrefixedUtf16 | src/lib.rs:300-303 | the tag 14 and 15 buffer exists exactly for ASCII names; it is then 2 + 2·len bytes, begins with the UTF-8 byte length `as u16`, and decodes back to the name |
| Create.BuildExtras | src/lib.rs:288-333 | building the extras succeeds exactly when the file and volume names are ASCII |
| Create.BuildExtrasContents | src/lib.rs:288-333 | tags 0, 1, 14, 15, 18 and 19 in order, with the parent name, parent id, the two prefixed names, the target path below the volume and the volume path |
| Create.BuildExtrasWellFormed | src/lib.rs:288-333 | every declared length equals its data length exactly when no `as u16` cast truncated |
| Create.AssembleInfo | src/lib.rs:247-286 | the record exists exactly when the extras do; it is version 2, carries the built extras, is a directory exactly when the target is, has the inode numbers `as u32` as ids, passes the names and dates through, has signature `H+`, and volume type Local exactly for the volume path `/`, Other otherwise |
| Create.CreateRecordSucceeds | src/lib.rs:247-344 | `create` succeeds exactly for ASCII names of at most 63 and 27 bytes; without truncation the record is `total` bytes and ends with the terminator |
| Fixture.FixtureDates | src/lib.rs:420-435 | the fixture's two dates in the alias epoch are CE EB 5E 54 and CE EB 5E 58 |
| Fixture.FixtureEncodes | src/lib.rs:417-485 | encoding the test record gives exactly the fixture bytes |

## Left out

- `get_volume_name` and the CoreFoundation calls behind it (src/lib.rs:349-401) are foreign code. The volume's display name is an input of `Create.Gathered`.
- The N-API entry point, `fs::metadata`, `ctime`, `SystemTime` and `file_name` (src/lib.rs:230-245, 254-269) do I/O. The values they produce are the fields of `Create.Gathered`, so their error returns are not modelled.
- Alias.AppleDate: an integer reading of the `f64` arithmetic, because floating point is not modelled. It rounds halves up, which is what `round` does for the positive values seen here. It does not model the precision lost for huge values.
- `Path` is modelled by its components. `Create.VolumeContainsTarget` requires the volume path text to be a prefix of the target path text. That is the ancestor property proved by `VolumeLocator.WalkStaysOnDevice`, restated on text. Path parsing and `to_string_lossy` are not modelled.
- The `assert!` that the target is a file or a directory (src/lib.rs:245): the model has only those two kinds.
- The `copy_from_slice` panic for non-ASCII names is the error `SliceLengthMismatch`. Other panics (`unwrap`, `expect`) come from I/O and are not modelled.
- The `?` on cursor writes: writes to a `Cursor<Vec<u8>>` cannot fail, so the writers have no error path.
- `encode` writes bytes before its early error returns. Those bytes are discarded and cannot be seen, so `Encode` returns the error and nothing else.
- The base64 decoding in the unit test: `Fixture.FixtureBytes` holds the fixture already decoded.
- The `get_volume_name` unit test (src/lib.rs:410-414) depends on the host machine.
