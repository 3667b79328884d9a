/** Percent-encoding of URI components (section 2.1 of RFC 3986) as
    JavaScript's `encodeURIComponent` and `decodeURIComponent` perform it:
    every character outside the unreserved set is written as the `%XY`
    escapes of its UTF-8 bytes, and decoding rejects (with a `URIError`) a
    stray `%`, a bad hex digit or octets that are not valid UTF-8. */
module Uri {
  import opened Wrappers

  predicate IsByte(b: int) { 0 <= b < 256 }

  function HexValue(c: char): Option<nat> {
    if '0' <= c <= '9' then Some(c as int - '0' as int)
    else if 'A' <= c <= 'F' then Some(c as int - 'A' as int + 10)
    else if 'a' <= c <= 'f' then Some(c as int - 'a' as int + 10)
    else None
  }

  /** Upper-case hex digit, as `encodeURIComponent` writes it. */
  function HexDigit(d: nat): (c: char)
    requires d < 16
    ensures HexValue(c) == Some(d)
  {
    if d < 10 then (d + '0' as int) as char else (d - 10 + 'A' as int) as char
  }

  /** The escape `%XY` of one byte. */
  function EscapeByte(b: nat): (r: string)
    requires IsByte(b)
    ensures |r| == 3 && r[0] == '%'
    ensures forall k :: 0 <= k < |r| ==> r[k] == '%' || HexValue(r[k]).Some?
  {
    ['%', HexDigit(b / 16), HexDigit(b % 16)]
  }

  /** The byte written by the escape that starts at `s[k]`. */
  function EscapedByte(s: string, k: nat): (r: Option<nat>)
    ensures r.Some? ==> k + 3 <= |s| && IsByte(r.value)
  {
    if k + 3 <= |s| && s[k] == '%' && HexValue(s[k + 1]).Some? && HexValue(s[k + 2]).Some?
    then Some(16 * HexValue(s[k + 1]).value + HexValue(s[k + 2]).value)
    else None
  }

  lemma EscapedByteOfEscape(b: nat, s: string, k: nat)
    requires IsByte(b) && k + 3 <= |s| && s[k..k + 3] == EscapeByte(b)
    ensures EscapedByte(s, k) == Some(b)
  {
    assert s[k] == '%' && s[k + 1] == HexDigit(b / 16) && s[k + 2] == HexDigit(b % 16);
  }

  predicate IsContinuation(b: nat) { 0x80 <= b < 0xC0 }

  /** Number of octets announced by a leading byte: the count of its leading
      one bits, which must be 2, 3 or 4 for a byte of 0x80 or more. */
  function SequenceLength(b0: nat): Option<nat> {
    if b0 < 0x80 then Some(1)
    else if 0xC0 <= b0 < 0xE0 then Some(2)
    else if 0xE0 <= b0 < 0xF0 then Some(3)
    else if 0xF0 <= b0 < 0xF8 then Some(4)
    else None
  }

  predicate IsScalar(cp: int) { (0 <= cp < 0xD800) || (0xE000 <= cp < 0x11_0000) }

  /** The code point a UTF-8 octet sequence encodes, rejecting overlong
      forms, surrogates and values beyond U+10FFFF. */
  function Utf8Decode(bs: seq<nat>): (r: Option<char>)
    requires 1 <= |bs| <= 4 && SequenceLength(bs[0]) == Some(|bs|)
  {
    if |bs| == 1 then Some(bs[0] as char)
    else if exists k :: 1 <= k < |bs| && !IsContinuation(bs[k]) then None
    else
      var cp :=
        if |bs| == 2 then (bs[0] - 0xC0) * 64 + (bs[1] - 0x80)
        else if |bs| == 3 then ((bs[0] - 0xE0) * 64 + (bs[1] - 0x80)) * 64 + (bs[2] - 0x80)
        else (((bs[0] - 0xF0) * 64 + (bs[1] - 0x80)) * 64 + (bs[2] - 0x80)) * 64 + (bs[3] - 0x80);
      var least := if |bs| == 2 then 0x80 else if |bs| == 3 then 0x800 else 0x1_0000;
      if least <= cp && IsScalar(cp) then Some(cp as char) else None
  }

  /** The octets of the escapes `%XY%XY...` starting at `s[k]`. */
  function EscapedBytes(s: string, k: nat, n: nat): (r: Option<seq<nat>>)
    requires k <= |s|
    ensures r.Some? ==> |r.value| == n && k + 3 * n <= |s|
    ensures r.Some? ==> forall j :: 0 <= j < n ==> EscapedByte(s, k + 3 * j) == Some(r.value[j])
    decreases n
  {
    if n == 0 then Some([])
    else match EscapedByte(s, k)
      case None => None
      case Some(b) =>
        match EscapedBytes(s, k + 3, n - 1)
        case None => None
        case Some(rest) => Some([b] + rest)
  }

  /** The first decoded character of `s` and how many characters of `s` it
      took, or `None` for a `URIError`. */
  function DecodeHead(s: string): (r: Option<(char, nat)>)
    requires s != []
    ensures r.Some? ==> 1 <= r.value.1 <= |s|
  {
    if s[0] != '%' then Some((s[0], 1))
    else match EscapedByte(s, 0)
      case None => None
      case Some(b0) =>
        match SequenceLength(b0)
        case None => None
        case Some(n) =>
          match EscapedBytes(s, 0, n)
          case None => None
          case Some(bs) =>
            match Utf8Decode(bs)
            case None => None
            case Some(c) => Some((c, 3 * n))
  }

  /** `decodeURIComponent(s)`; `None` is the `URIError` it throws. */
  function Decode(s: string): Option<string>
    decreases |s|
  {
    if s == [] then Some([])
    else match DecodeHead(s)
      case None => None
      case Some((c, used)) =>
        match Decode(s[used..])
        case None => None
        case Some(rest) => Some([c] + rest)
  }

  /** The characters `encodeURIComponent` leaves as they are. */
  predicate Unreserved(c: char) {
    ('A' <= c <= 'Z') || ('a' <= c <= 'z') || ('0' <= c <= '9')
    || c == '-' || c == '_' || c == '.' || c == '!' || c == '~' || c == '*' || c == '\'' || c == '(' || c == ')'
  }

  /** The UTF-8 octets of a character. */
  function Utf8Encode(c: char): (bs: seq<nat>)
    ensures 1 <= |bs| <= 4 && forall j :: 0 <= j < |bs| ==> IsByte(bs[j])
    ensures SequenceLength(bs[0]) == Some(|bs|)
  {
    var cp := c as int;
    var q1 := cp / 64;
    var q2 := q1 / 64;
    var q3 := q2 / 64;
    if cp < 0x80 then [cp]
    else if cp < 0x800 then [0xC0 + q1, 0x80 + cp % 64]
    else if cp < 0x1_0000 then [0xE0 + q2, 0x80 + q1 % 64, 0x80 + cp % 64]
    else [0xF0 + q3, 0x80 + q2 % 64, 0x80 + q1 % 64, 0x80 + cp % 64]
  }

  lemma Utf8RoundTrip(c: char)
    ensures Utf8Decode(Utf8Encode(c)) == Some(c)
  {
    var cp := c as int;
    var q1 := cp / 64;
    var q2 := q1 / 64;
    var q3 := q2 / 64;
    assert cp == q1 * 64 + cp % 64;
    assert q1 == q2 * 64 + q1 % 64;
    assert q2 == q3 * 64 + q2 % 64;
  }

  function EscapeBytes(bs: seq<nat>): (r: string)
    requires forall j :: 0 <= j < |bs| ==> IsByte(bs[j])
    ensures |r| == 3 * |bs|
    ensures forall j :: 0 <= j < |bs| ==> r[3 * j..3 * j + 3] == EscapeByte(bs[j])
    ensures forall k :: 0 <= k < |r| ==> r[k] == '%' || HexValue(r[k]).Some?
  {
    if bs == [] then []
    else
      var r := EscapeByte(bs[0]) + EscapeBytes(bs[1..]);
      assert forall j :: 1 <= j < |bs| ==> r[3 * j..3 * j + 3] == EscapeBytes(bs[1..])[3 * (j - 1)..3 * (j - 1) + 3];
      r
  }

  function EncodeChar(c: char): (r: string)
    ensures 1 <= |r|
    ensures forall k :: 0 <= k < |r| ==> Unreserved(r[k]) || r[k] == '%' || HexValue(r[k]).Some?
  {
    if Unreserved(c) then [c] else EscapeBytes(Utf8Encode(c))
  }

  /** `encodeURIComponent(s)`. */
  function Encode(s: string): (r: string)
    ensures forall k :: 0 <= k < |r| ==> Unreserved(r[k]) || r[k] == '%' || HexValue(r[k]).Some?
  {
    if s == [] then [] else EncodeChar(s[0]) + Encode(s[1..])
  }

  lemma EscapedBytesOfEscapes(bs: seq<nat>, s: string)
    requires forall j :: 0 <= j < |bs| ==> IsByte(bs[j])
    requires 3 * |bs| <= |s| && s[..3 * |bs|] == EscapeBytes(bs)
    ensures EscapedBytes(s, 0, |bs|) == Some(bs)
  {
    var e := EscapeBytes(bs);
    forall j | 0 <= j < |bs| ensures EscapedByte(s, 3 * j) == Some(bs[j]) {
      assert s[3 * j..3 * j + 3] == e[3 * j..3 * j + 3];
      EscapedByteOfEscape(bs[j], s, 3 * j);
    }
    EscapedBytesAll(bs, s, 0);
  }

  lemma {:induction false} EscapedBytesAll(bs: seq<nat>, s: string, i: nat)
    requires i <= |bs| && 3 * |bs| <= |s|
    requires forall j :: i <= j < |bs| ==> EscapedByte(s, 3 * j) == Some(bs[j])
    ensures EscapedBytes(s, 3 * i, |bs| - i) == Some(bs[i..])
    decreases |bs| - i
  {
    if i < |bs| {
      EscapedBytesAll(bs, s, i + 1);
      EscapedBytesCons(s, 3 * i, |bs| - i, bs[i], bs[i + 1..]);
      assert bs[i..] == [bs[i]] + bs[i + 1..];
    } else {
      assert bs[i..] == [];
    }
  }

  lemma EscapedBytesCons(s: string, k: nat, n: nat, b: nat, rest: seq<nat>)
    requires n >= 1 && k + 3 <= |s|
    requires EscapedByte(s, k) == Some(b) && EscapedBytes(s, k + 3, n - 1) == Some(rest)
    ensures EscapedBytes(s, k, n) == Some([b] + rest)
  {
  }

  /** Decoding the escapes of one character gives that character back and
      consumes exactly those escapes. */
  lemma DecodeHeadOfEncodeChar(c: char, rest: string)
    ensures DecodeHead(EncodeChar(c) + rest) == Some((c, |EncodeChar(c)|))
  {
    var s := EncodeChar(c) + rest;
    if !Unreserved(c) {
      var bs := Utf8Encode(c);
      assert s[..3 * |bs|] == EscapeBytes(bs);
      EscapedBytesOfEscapes(bs, s);
      assert s[0..3] == EscapeByte(bs[0]);
      EscapedByteOfEscape(bs[0], s, 0);
      Utf8RoundTrip(c);
    }
  }

  lemma DecodeStep(s: string, c: char, used: nat, rest: string)
    requires s != [] && DecodeHead(s) == Some((c, used)) && used <= |s|
    requires Decode(s[used..]) == Some(rest)
    ensures Decode(s) == Some([c] + rest)
  {
  }

  /** `decodeURIComponent(encodeURIComponent(s)) == s` for every string. */
  lemma {:induction false} DecodeEncode(s: string)
    ensures Decode(Encode(s)) == Some(s)
    decreases |s|
  {
    if s != [] {
      var head := EncodeChar(s[0]);
      var tail := Encode(s[1..]);
      DecodeHeadOfEncodeChar(s[0], tail);
      assert (head + tail)[|head|..] == tail;
      DecodeEncode(s[1..]);
      DecodeStep(head + tail, s[0], |head|, s[1..]);
      assert Encode(s) == head + tail;
      assert s == [s[0]] + s[1..];
    }
  }
}
