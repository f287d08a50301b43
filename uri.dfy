/**
 * `encodeURIComponent` (section 19.2.6.5 of ECMA-262): every character
 * outside the unreserved set is written as the percent-encoded UTF-8 bytes of
 * its code point (section 2.1 of RFC 3986, section 3 of RFC 3629). The
 * decoder below is the partner that `decodeURIComponent` provides; it is here
 * so that the encoding can be shown to lose nothing.
 */
module UriEncoding {
  import opened Wrappers

  type Byte = x: nat | x < 256

  /** The characters `encodeURIComponent` leaves alone. */
  predicate IsUnreserved(c: char) {
    ('A' <= c <= 'Z') || ('a' <= c <= 'z') || ('0' <= c <= '9')
    || c == '-' || c == '_' || c == '.' || c == '!' || c == '~'
    || c == '*' || c == '\'' || c == '(' || c == ')'
  }

  predicate IsScalar(cp: nat) {
    cp < 0xD800 || (0xE000 <= cp < 0x11_0000)
  }

  /** The UTF-8 encoding of a Unicode scalar value. */
  function Utf8(cp: nat): (bs: seq<Byte>)
    requires IsScalar(cp)
    ensures 1 <= |bs| <= 4
  {
    if cp < 0x80 then [cp]
    else if cp < 0x800 then [0xC0 + cp / 64, 0x80 + cp % 64]
    else if cp < 0x1_0000 then [0xE0 + cp / 4096, 0x80 + (cp / 64) % 64, 0x80 + cp % 64]
    else [0xF0 + cp / 262144, 0x80 + (cp / 4096) % 64, 0x80 + (cp / 64) % 64, 0x80 + cp % 64]
  }

  function HexDigit(d: nat): (c: char)
    requires d < 16
  {
    "0123456789ABCDEF"[d]
  }

  /** `%XY` for one byte, upper-case hexadecimal as ECMA-262 prescribes. */
  function PercentByte(b: Byte): (r: string)
    ensures |r| == 3 && r[0] == '%'
  {
    ['%', HexDigit(b / 16), HexDigit(b % 16)]
  }

  function PercentBytes(bs: seq<Byte>): (r: string)
    ensures |r| == 3 * |bs|
    ensures bs != [] ==> r[0] == '%'
  {
    if bs == [] then [] else PercentByte(bs[0]) + PercentBytes(bs[1..])
  }

  function EncodeChar(c: char): (r: string)
    ensures IsUnreserved(c) ==> r == [c]
    ensures !IsUnreserved(c) ==> 3 <= |r| <= 12 && r[0] == '%'
  {
    if IsUnreserved(c) then [c] else PercentBytes(Utf8(c as int))
  }

  /** `encodeURIComponent(s)` */
  function Encode(s: string): (r: string)
  {
    if s == [] then [] else EncodeChar(s[0]) + Encode(s[1..])
  }

  // ---------------------------------------------------------------------
  // Properties of the encoding

  /** Encoding distributes over concatenation. */
  lemma {:induction false} EncodeAppend(a: string, b: string)
    ensures Encode(a + b) == Encode(a) + Encode(b)
    decreases |a|
  {
    if a != [] {
      assert (a + b)[0] == a[0];
      assert (a + b)[1..] == a[1..] + b;
      EncodeAppend(a[1..], b);
    } else {
      assert a + b == b;
    }
  }

  predicate IsAscii(s: string) {
    forall i | 0 <= i < |s| :: s[i] < '\U{80}'
  }

  lemma PercentBytesAscii(bs: seq<Byte>)
    ensures IsAscii(PercentBytes(bs))
  {
    if bs != [] {
      PercentBytesAscii(bs[1..]);
    }
  }

  /** The encoded text is plain ASCII, so its JavaScript `length` (UTF-16
      code units) equals its number of characters. */
  lemma {:induction false} EncodeAscii(s: string)
    ensures IsAscii(Encode(s))
    decreases |s|
  {
    if s != [] {
      if !IsUnreserved(s[0]) {
        PercentBytesAscii(Utf8(s[0] as int));
      }
      EncodeAscii(s[1..]);
    }
  }

  /** Each character becomes between 1 and 12 characters, and exactly one
      when it is unreserved. */
  lemma {:induction false} EncodeLength(s: string)
    ensures |s| <= |Encode(s)| <= 12 * |s|
    ensures (forall i | 0 <= i < |s| :: IsUnreserved(s[i])) ==> Encode(s) == s
    decreases |s|
  {
    if s != [] {
      EncodeLength(s[1..]);
      assert s == [s[0]] + s[1..];
    }
  }

  // ---------------------------------------------------------------------
  // The decoder and the round trip

  function HexValue(c: char): (r: Option<nat>)
    ensures r.Some? ==> r.value < 16
  {
    if '0' <= c <= '9' then Some(c as int - '0' as int)
    else if 'A' <= c <= 'F' then Some(c as int - 'A' as int + 10)
    else if 'a' <= c <= 'f' then Some(c as int - 'a' as int + 10)
    else None
  }

  lemma HexValueOfDigit(d: nat)
    requires d < 16
    ensures HexValue(HexDigit(d)) == Some(d)
  {
  }

  /** Reads one `%XY` at index `i`. */
  function ReadByte(e: string, i: nat): (r: Option<Byte>)
  {
    if i + 3 <= |e| && e[i] == '%' then
      match (HexValue(e[i + 1]), HexValue(e[i + 2]))
      case (Some(hi), Some(lo)) => Some(16 * hi + lo)
      case _ => None
    else None
  }

  lemma ReadPercentByte(b: Byte, rest: string)
    ensures ReadByte(PercentByte(b) + rest, 0) == Some(b)
  {
    var e := PercentByte(b) + rest;
    assert e[1] == HexDigit(b / 16) && e[2] == HexDigit(b % 16);
    HexValueOfDigit(b / 16);
    HexValueOfDigit(b % 16);
  }

  predicate IsContinuation(b: Byte) {
    0x80 <= b < 0xC0
  }

  /** How many bytes a sequence starting with lead byte `b` has, or 0 when
      `b` cannot start one. */
  function SequenceLength(b: Byte): nat {
    if b < 0x80 then 1
    else if 0xC0 <= b < 0xE0 then 2
    else if 0xE0 <= b < 0xF0 then 3
    else if 0xF0 <= b < 0xF8 then 4
    else 0
  }

  /** The code point that a well-formed byte sequence stands for. */
  function CodePoint(bs: seq<Byte>): int
    requires 1 <= |bs| <= 4
  {
    var b := seq(|bs|, k requires 0 <= k < |bs| => bs[k] as int);
    if |b| == 1 then b[0]
    else if |b| == 2 then (b[0] - 0xC0) * 64 + (b[1] - 0x80)
    else if |b| == 3 then (b[0] - 0xE0) * 4096 + (b[1] - 0x80) * 64 + (b[2] - 0x80)
    else (b[0] - 0xF0) * 262144 + (b[1] - 0x80) * 4096 + (b[2] - 0x80) * 64 + (b[3] - 0x80)
  }

  function ReadBytes(e: string, i: nat, n: nat): (r: Option<seq<Byte>>)
    decreases n
    ensures r.Some? ==> |r.value| == n
  {
    if n == 0 then Some([])
    else match ReadByte(e, i)
      case None => None
      case Some(b) =>
        match ReadBytes(e, i + 3, n - 1)
        case None => None
        case Some(bs) => Some([b] + bs)
  }

  /** Decodes the one character that starts `e` when `e` starts with `%`;
      returns the character and how many characters of `e` it used. */
  function DecodeEscape(e: string): (r: Option<(char, nat)>)
    ensures r.Some? ==> 3 <= r.value.1 <= |e|
  {
    match ReadByte(e, 0)
    case None => None
    case Some(b0) =>
      var n := SequenceLength(b0);
      if n == 0 then None
      else match ReadBytes(e, 0, n)
        case None => None
        case Some(bs) =>
          if (forall k | 1 <= k < n :: IsContinuation(bs[k])) then
            var cp := CodePoint(bs);
            if 0 <= cp && IsScalar(cp) && Utf8(cp) == bs then Some((cp as char, 3 * n)) else None
          else None
  }

  /** `decodeURIComponent(e)`, with `None` for the inputs on which it throws
      a `URIError`. */
  function Decode(e: string): (r: Option<string>)
    decreases |e|
  {
    if e == [] then Some([])
    else if e[0] != '%' then
      match Decode(e[1..])
      case None => None
      case Some(t) => Some([e[0]] + t)
    else
      match DecodeEscape(e)
      case None => None
      case Some((c, used)) =>
        match Decode(e[used..])
        case None => None
        case Some(t) => Some([c] + t)
  }

  lemma {:induction false} ReadPercentBytes(bs: seq<Byte>, rest: string, k: nat)
    requires k <= |bs|
    ensures ReadBytes(PercentBytes(bs) + rest, 0, k) == Some(bs[..k])
    decreases k
  {
    if k > 0 {
      var e := PercentBytes(bs) + rest;
      assert e == PercentByte(bs[0]) + (PercentBytes(bs[1..]) + rest);
      ReadPercentByte(bs[0], PercentBytes(bs[1..]) + rest);
      ReadPercentBytesFrom(bs, rest, k);
    }
  }

  lemma {:induction false} ReadPercentBytesFrom(bs: seq<Byte>, rest: string, k: nat)
    requires 0 < k <= |bs|
    ensures ReadBytes(PercentBytes(bs) + rest, 0, k) == Some(bs[..k])
    decreases k, 0
  {
    var e := PercentBytes(bs) + rest;
    var tail := PercentBytes(bs[1..]) + rest;
    assert e == PercentByte(bs[0]) + tail;
    ReadPercentByte(bs[0], tail);
    ShiftedReadBytes(PercentByte(bs[0]), tail, k - 1);
    ReadPercentBytes(bs[1..], rest, k - 1);
    assert [bs[0]] + bs[1..][..k - 1] == bs[..k];
  }

  /** Reading past a three-character prefix is reading the rest. */
  lemma {:induction false} ShiftedReadBytes(pre: string, e: string, n: nat)
    requires |pre| == 3
    ensures ReadBytes(pre + e, 3, n) == ReadBytes(e, 0, n)
  {
    ShiftedReadBytesAt(pre, e, 0, n);
  }

  lemma {:induction false} ShiftedReadBytesAt(pre: string, e: string, i: nat, n: nat)
    requires |pre| == 3
    ensures ReadBytes(pre + e, i + 3, n) == ReadBytes(e, i, n)
    decreases n
  {
    var pe := pre + e;
    if i + 3 <= |e| {
      assert pe[i + 3] == e[i] && pe[i + 4] == e[i + 1] && pe[i + 5] == e[i + 2];
    }
    assert ReadByte(pe, i + 3) == ReadByte(e, i);
    if n > 0 {
      ShiftedReadBytesAt(pre, e, i + 3, n - 1);
    }
  }

  /** The arithmetic behind UTF-8: the lead byte announces the length, the
      other bytes are continuation bytes, and the bytes give back the code
      point. */
  lemma Utf8WellFormed(cp: nat)
    requires IsScalar(cp)
    ensures SequenceLength(Utf8(cp)[0]) == |Utf8(cp)|
    ensures forall k | 1 <= k < |Utf8(cp)| :: IsContinuation(Utf8(cp)[k])
    ensures CodePoint(Utf8(cp)) == cp
  {
    var q := cp / 64;
    assert cp == q * 64 + cp % 64;
    var q2 := q / 64;
    assert q == q2 * 64 + q % 64;
    assert cp / 4096 == q2;
    var q3 := q2 / 64;
    assert q2 == q3 * 64 + q2 % 64;
    assert cp / 262144 == q3;
  }

  lemma DecodeEscapeOfEncoded(c: char, rest: string)
    requires !IsUnreserved(c)
    ensures DecodeEscape(EncodeChar(c) + rest) == Some((c, |EncodeChar(c)|))
  {
    var bs := Utf8(c as int);
    var e := EncodeChar(c) + rest;
    Utf8WellFormed(c as int);
    ReadPercentBytes(bs, rest, |bs|);
    assert bs[..|bs|] == bs;
    ReadPercentBytes(bs, rest, 1);
    assert ReadByte(e, 0) == Some(bs[0]) by {
      assert bs[..1] == [bs[0]];
      assert ReadBytes(e, 0, 1) == Some([bs[0]]);
    }
  }

  /** Decoding one encoded character and then the rest. */
  lemma DecodeEncodedCons(c: char, rest: string)
    ensures Decode(EncodeChar(c) + rest) ==
              match Decode(rest)
              case None => None
              case Some(t) => Some([c] + t)
  {
    var e := EncodeChar(c) + rest;
    if IsUnreserved(c) {
      assert e[0] == c && e[1..] == rest;
    } else {
      DecodeEscapeOfEncoded(c, rest);
      assert e[|EncodeChar(c)|..] == rest;
    }
  }

  /** Decoding an encoded string gives it back: the encoding is lossless. */
  lemma {:induction false} DecodeEncode(s: string)
    ensures Decode(Encode(s)) == Some(s)
    decreases |s|
  {
    if s != [] {
      var rest := Encode(s[1..]);
      assert Encode(s) == EncodeChar(s[0]) + rest;
      DecodeEncode(s[1..]);
      DecodeEncodedCons(s[0], rest);
      assert s == [s[0]] + s[1..];
    }
  }
}
