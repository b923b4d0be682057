/** The two encodings a Rust `String` is seen through in the alias code:
    its UTF-8 bytes (`as_bytes`, whose count is `len`) and its UTF-16 code
    units (`encode_utf16`). A Dafny `char` is a Unicode scalar value, so a
    `string` stands for a Rust `String`. */
module Unicode {
  import opened Results
  import opened BigEndian

  /** A continuation byte of a multi-byte UTF-8 sequence: `10xxxxxx`. */
  predicate IsContinuation(b: byte)
  {
    0x80 <= b < 0xC0
  }

  /** The UTF-8 bytes of one scalar value: one byte below U+0080, two below
      U+0800, three below U+10000 and four above; a longer form starts with
      `110xxxxx`, `1110xxxx` or `11110xxx` and goes on with continuation
      bytes. */
  function Utf8Char(c: char): (r: seq<byte>)
    ensures |r| == (if c as int < 0x80 then 1 else if c as int < 0x800 then 2
                    else if c as int < 0x1_0000 then 3 else 4)
    ensures |r| == 1 ==> r[0] == c as int
    ensures |r| == 2 ==> 0xC2 <= r[0] < 0xE0
    ensures |r| == 3 ==> 0xE0 <= r[0] < 0xF0
    ensures |r| == 4 ==> 0xF0 <= r[0] < 0xF5
    ensures forall i :: 1 <= i < |r| ==> IsContinuation(r[i])
  {
    var n := c as int;
    if n < 0x80 then [n]
    else if n < 0x800 then [0xC0 + n / 0x40, 0x80 + n % 0x40]
    else if n < 0x1_0000 then [0xE0 + n / 0x1000, 0x80 + (n / 0x40) % 0x40, 0x80 + n % 0x40]
    else [0xF0 + n / 0x4_0000, 0x80 + (n / 0x1000) % 0x40, 0x80 + (n / 0x40) % 0x40, 0x80 + n % 0x40]
  }

  /** `s.as_bytes()`; `s.len()` is `|Utf8(s)|`. */
  function Utf8(s: string): seq<byte>
  {
    if s == [] then [] else Utf8Char(s[0]) + Utf8(s[1..])
  }

  /** The UTF-16 code units of one scalar value: one unit in the Basic
      Multilingual Plane, a surrogate pair above it. */
  function Utf16Char(c: char): (r: seq<u16>)
    ensures 1 <= |r| <= 2
    ensures |r| == 1 <==> c as int < 0x1_0000
    ensures |r| == 1 ==> r[0] == c as int
  {
    var n := c as int;
    if n < 0x1_0000 then [n]
    else [0xD800 + (n - 0x1_0000) / 0x400, 0xDC00 + (n - 0x1_0000) % 0x400]
  }

  /** `s.encode_utf16().collect::<Vec<u16>>()`. */
  function Utf16(s: string): seq<u16>
  {
    if s == [] then [] else Utf16Char(s[0]) + Utf16(s[1..])
  }

  predicate IsAscii(s: string)
  {
    forall i :: 0 <= i < |s| ==> s[i] as int < 0x80
  }

  /** Reads UTF-16 code units back into scalar values; `None` on an unpaired
      surrogate. */
  function DecodeUtf16(u: seq<u16>): Option<string>
    decreases |u|
  {
    if u == [] then Some([])
    else if u[0] < 0xD800 || 0xE000 <= u[0] then
      match DecodeUtf16(u[1..])
      case None => None
      case Some(t) => Some([u[0] as char] + t)
    else if u[0] < 0xDC00 && |u| >= 2 && 0xDC00 <= u[1] < 0xE000 then
      match DecodeUtf16(u[2..])
      case None => None
      case Some(t) => Some([(0x1_0000 + (u[0] as int - 0xD800) * 0x400 + (u[1] as int - 0xDC00)) as char] + t)
    else None
  }

  /** Reads one scalar value off the front of `b`, with the number of bytes
      it took; `None` unless `b` starts with a shortest-form encoding of a
      scalar value. */
  function DecodeUtf8Char(b: seq<byte>): (r: Option<(char, nat)>)
    ensures r.Some? ==> 1 <= r.value.1 <= |b|
  {
    if b == [] then None
    else
      var lead := b[0] as int;
      if lead < 0x80 then Some((lead as char, 1))
      else if 0xC2 <= lead < 0xE0 && |b| >= 2 && IsContinuation(b[1]) then
        var n := (lead - 0xC0) * 0x40 + (b[1] as int - 0x80);
        Some((n as char, 2))
      else if 0xE0 <= lead < 0xF0 && |b| >= 3 && IsContinuation(b[1]) && IsContinuation(b[2]) then
        var n := (lead - 0xE0) * 0x1000 + (b[1] as int - 0x80) * 0x40 + (b[2] as int - 0x80);
        if n < 0x800 || (0xD800 <= n < 0xE000) then None else Some((n as char, 3))
      else if 0xF0 <= lead < 0xF5 && |b| >= 4
              && IsContinuation(b[1]) && IsContinuation(b[2]) && IsContinuation(b[3]) then
        var n := (lead - 0xF0) * 0x4_0000 + (b[1] as int - 0x80) * 0x1000
                 + (b[2] as int - 0x80) * 0x40 + (b[3] as int - 0x80);
        if n < 0x1_0000 || 0x11_0000 <= n then None else Some((n as char, 4))
      else None
  }

  /** Reads UTF-8 bytes back into scalar values; `None` on a malformed,
      overlong or truncated sequence. */
  function DecodeUtf8(b: seq<byte>): Option<string>
    decreases |b|
  {
    match DecodeUtf8Char(b)
    case None => if b == [] then Some([]) else None
    case Some((c, k)) =>
      match DecodeUtf8(b[k..])
      case None => None
      case Some(t) => Some([c] + t)
  }

  lemma DecodeTwo(b: seq<byte>, n: int)
    requires 0x80 <= n < 0x800 && |b| >= 2
    requires b[0] as int == 0xC0 + n / 0x40 && b[1] as int == 0x80 + n % 0x40
    ensures DecodeUtf8Char(b) == Some((n as char, 2))
  {
    assert (b[0] as int - 0xC0) * 0x40 + (b[1] as int - 0x80) == n;
  }

  lemma DecodeThree(b: seq<byte>, n: int)
    requires 0x800 <= n < 0x1_0000 && !(0xD800 <= n < 0xE000) && |b| >= 3
    requires b[0] as int == 0xE0 + n / 0x1000
    requires b[1] as int == 0x80 + (n / 0x40) % 0x40 && b[2] as int == 0x80 + n % 0x40
    ensures DecodeUtf8Char(b) == Some((n as char, 3))
  {
    var x, y, z := n / 0x1000, (n / 0x40) % 0x40, n % 0x40;
    assert n / 0x40 == x * 0x40 + y;
    assert x * 0x1000 + y * 0x40 + z == n;
  }

  lemma DecodeFour(b: seq<byte>, n: int)
    requires 0x1_0000 <= n < 0x11_0000 && |b| >= 4
    requires b[0] as int == 0xF0 + n / 0x4_0000
    requires b[1] as int == 0x80 + (n / 0x1000) % 0x40
    requires b[2] as int == 0x80 + (n / 0x40) % 0x40 && b[3] as int == 0x80 + n % 0x40
    ensures DecodeUtf8Char(b) == Some((n as char, 4))
  {
    var w, x, y, z := n / 0x4_0000, (n / 0x1000) % 0x40, (n / 0x40) % 0x40, n % 0x40;
    assert n / 0x1000 == w * 0x40 + x;
    assert n / 0x40 == (n / 0x1000) * 0x40 + y;
    assert w * 0x4_0000 + x * 0x1000 + y * 0x40 + z == n;
  }

  /** One scalar value's bytes, followed by anything, read back as that
      value and its byte count. */
  lemma Utf8CharRoundTrip(c: char, rest: seq<byte>)
    ensures DecodeUtf8Char(Utf8Char(c) + rest) == Some((c, |Utf8Char(c)|))
  {
    var n := c as int;
    var b := Utf8Char(c) + rest;
    if n < 0x80 {
    } else if n < 0x800 {
      DecodeTwo(b, n);
    } else if n < 0x1_0000 {
      DecodeThree(b, n);
    } else {
      DecodeFour(b, n);
    }
  }

  /** `as_bytes` loses nothing: decoding the UTF-8 bytes gives the text
      back. */
  lemma {:induction false} Utf8RoundTrip(s: string)
    ensures DecodeUtf8(Utf8(s)) == Some(s)
    decreases |s|
  {
    if s != [] {
      var head, rest := Utf8Char(s[0]), Utf8(s[1..]);
      Utf8CharRoundTrip(s[0], rest);
      Utf8RoundTrip(s[1..]);
      assert (head + rest)[|head|..] == rest;
      assert s == [s[0]] + s[1..];
    }
  }

  lemma {:induction false} Utf8Append(a: string, b: string)
    ensures Utf8(a + b) == Utf8(a) + Utf8(b)
    decreases |a|
  {
    if a == [] {
      assert a + b == b;
    } else {
      assert (a + b)[1..] == a[1..] + b;
      Utf8Append(a[1..], b);
    }
  }

  /** A prefix of a string encodes to a prefix of its bytes. */
  lemma Utf8OfPrefix(a: string, s: string)
    requires a <= s
    ensures Utf8(a) <= Utf8(s)
    ensures Utf8(s)[|Utf8(a)|..] == Utf8(s[|a|..])
  {
    assert s == a + s[|a|..];
    Utf8Append(a, s[|a|..]);
  }

  /** Every scalar value takes at least as many UTF-8 bytes as UTF-16 units,
      and exactly as many precisely when the text is ASCII. */
  lemma {:induction false} Utf16NoLongerThanUtf8(s: string)
    ensures |Utf16(s)| <= |Utf8(s)|
    ensures |Utf16(s)| == |Utf8(s)| <==> IsAscii(s)
    decreases |s|
  {
    if s != [] {
      Utf16NoLongerThanUtf8(s[1..]);
      assert IsAscii(s) <==> s[0] as int < 0x80 && IsAscii(s[1..]) by {
        if IsAscii(s) {
          forall i | 0 <= i < |s[1..]| ensures s[1..][i] as int < 0x80 {
            assert s[1..][i] == s[i + 1];
          }
        }
        if s[0] as int < 0x80 && IsAscii(s[1..]) {
          forall i | 0 <= i < |s| ensures s[i] as int < 0x80 {
            if i > 0 { assert s[i] == s[1..][i - 1]; }
          }
        }
      }
    }
  }

  /** For ASCII text both encodings are the character codes themselves. */
  lemma {:induction false} AsciiEncodings(s: string)
    requires IsAscii(s)
    ensures |Utf8(s)| == |s| && |Utf16(s)| == |s|
    ensures forall i :: 0 <= i < |s| ==> Utf8(s)[i] == s[i] as int && Utf16(s)[i] == s[i] as int
    decreases |s|
  {
    if s != [] {
      assert IsAscii(s[1..]) by {
        forall i | 0 <= i < |s[1..]| ensures s[1..][i] as int < 0x80 {
          assert s[1..][i] == s[i + 1];
        }
      }
      AsciiEncodings(s[1..]);
      assert s[0] as int < 0x80;
      forall i | 0 <= i < |s| ensures Utf8(s)[i] == s[i] as int && Utf16(s)[i] == s[i] as int {
        if i > 0 { assert s[i] == s[1..][i - 1]; }
      }
    }
  }

  /** `encode_utf16` loses nothing: decoding its units gives the text back. */
  lemma {:induction false} Utf16RoundTrip(s: string)
    ensures DecodeUtf16(Utf16(s)) == Some(s)
    decreases |s|
  {
    if s != [] {
      var head, rest := Utf16Char(s[0]), Utf16(s[1..]);
      var u := head + rest;
      Utf16RoundTrip(s[1..]);
      var n := s[0] as int;
      if n < 0x1_0000 {
        assert u[1..] == rest;
      } else {
        assert u[2..] == rest;
        assert 0x1_0000 + (u[0] as int - 0xD800) * 0x400 + (u[1] as int - 0xDC00) == n;
      }
      assert s == [s[0]] + s[1..];
    }
  }
}
