/** `std::io::Cursor<Vec<u8>>` as the encoder uses it: a byte vector and a
    position; each write overwrites the bytes at the position, grows the
    vector when it runs past the end, and advances the position. */
module Cursors {
  import opened BigEndian

  /** The vector after writing `bytes` at `pos`: the written range holds
      `bytes`, the rest keeps its old bytes, and a gap left by a position
      past the end reads as zeros. */
  function Overwrite(buf: seq<byte>, pos: nat, bytes: seq<byte>): seq<byte>
  {
    var grown := if pos > |buf| then buf + Zeros(pos - |buf|) else buf;
    grown[..pos] + bytes + (if pos + |bytes| < |grown| then grown[pos + |bytes|..] else [])
  }

  /** What a cursor that started at position 0 over `init` holds once it has
      written `written`: those bytes, then whatever of `init` lies beyond. */
  function Fill(written: seq<byte>, init: seq<byte>): seq<byte>
  {
    if |written| >= |init| then written else written + init[|written|..]
  }

  lemma OverwriteAt(buf: seq<byte>, pos: nat, bytes: seq<byte>)
    ensures var r := Overwrite(buf, pos, bytes);
      && |r| == (if pos + |bytes| > |buf| then pos + |bytes| else |buf|)
      && forall i :: 0 <= i < |r| ==>
           r[i] == if pos <= i < pos + |bytes| then bytes[i - pos] else if i < |buf| then buf[i] else 0
  {
  }

  lemma FillAt(written: seq<byte>, init: seq<byte>)
    ensures var r := Fill(written, init);
      && |r| == (if |written| >= |init| then |written| else |init|)
      && forall i :: 0 <= i < |r| ==> r[i] == if i < |written| then written[i] else init[i]
  {
  }

  /** Writing at the end of what was written extends it. */
  lemma FillOverwrite(written: seq<byte>, init: seq<byte>, bytes: seq<byte>)
    ensures Overwrite(Fill(written, init), |written|, bytes) == Fill(written + bytes, init)
  {
    var a := Overwrite(Fill(written, init), |written|, bytes);
    var b := Fill(written + bytes, init);
    FillAt(written, init);
    FillAt(written + bytes, init);
    OverwriteAt(Fill(written, init), |written|, bytes);
    assert |a| == |b|;
    forall i | 0 <= i < |a| ensures a[i] == b[i] {
    }
  }

  class Cursor {
    var buf: seq<byte>
    var pos: nat
    /** The vector the cursor was created over, and the bytes written since. */
    ghost var init: seq<byte>
    ghost var written: seq<byte>

    ghost predicate Valid()
      reads this
    {
      pos == |written| && buf == Fill(written, init)
    }

    /** `Cursor::new(inner)`. */
    constructor (inner: seq<byte>)
      ensures Valid() && init == inner && written == []
      ensures buf == inner && pos == 0
    {
      buf, pos := inner, 0;
      init, written := inner, [];
    }

    /** `write_all`. */
    method WriteAll(bytes: seq<byte>)
      requires Valid()
      modifies this
      ensures Valid() && init == old(init) && written == old(written) + bytes
      ensures buf == Overwrite(old(buf), old(pos), bytes) && pos == old(pos) + |bytes|
    {
      FillOverwrite(written, init, bytes);
      buf := Overwrite(buf, pos, bytes);
      pos := pos + |bytes|;
      written := written + bytes;
    }

    /** `write_u8`. */
    method WriteU8(x: byte)
      requires Valid()
      modifies this
      ensures Valid() && init == old(init) && written == old(written) + [x]
      ensures buf == Overwrite(old(buf), old(pos), [x]) && pos == old(pos) + 1
    {
      WriteAll([x]);
    }

    /** `write_u16::<BigEndian>`. */
    method WriteU16(x: u16)
      requires Valid()
      modifies this
      ensures Valid() && init == old(init) && written == old(written) + BeU16(x)
      ensures buf == Overwrite(old(buf), old(pos), BeU16(x)) && pos == old(pos) + 2
    {
      WriteAll(BeU16(x));
    }

    /** `write_i16::<BigEndian>`. */
    method WriteI16(x: i16)
      requires Valid()
      modifies this
      ensures Valid() && init == old(init) && written == old(written) + BeI16(x)
      ensures buf == Overwrite(old(buf), old(pos), BeI16(x)) && pos == old(pos) + 2
    {
      WriteAll(BeI16(x));
    }

    /** `write_u32::<BigEndian>`. */
    method WriteU32(x: u32)
      requires Valid()
      modifies this
      ensures Valid() && init == old(init) && written == old(written) + BeU32(x)
      ensures buf == Overwrite(old(buf), old(pos), BeU32(x)) && pos == old(pos) + 4
    {
      WriteAll(BeU32(x));
    }

    /** `into_inner`: the vector, which holds the written bytes over the
        initial contents. */
    method IntoInner() returns (inner: seq<byte>)
      requires Valid()
      ensures inner == Fill(written, init)
    {
      inner := buf;
    }
  }
}
