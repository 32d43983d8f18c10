/** `encodeURIComponent`, which the news service applies to a company name
    before placing it in a query string: every character outside the
    unreserved set A-Z a-z 0-9 - _ . ! ~ * ' ( ) is written as the
    percent-escaped bytes of its UTF-8 encoding, with upper-case hex digits.
    Strings here hold Unicode scalar values, so the lone-surrogate error of
    the JavaScript function cannot arise.

    The partner is `Decode` (`decodeURIComponent`), which undoes it. */
module UriComponent {
  import opened Outcomes
  import Strings

  predicate Unreserved(c: char) {
    || ('A' <= c <= 'Z') || ('a' <= c <= 'z') || ('0' <= c <= '9')
    || c == '-' || c == '_' || c == '.' || c == '!' || c == '~' || c == '*' || c == '\'' || c == '(' || c == ')'
  }

  predicate IsByte(b: int) {
    0 <= b < 256
  }

  /** The UTF-8 encoding of one scalar value. */
  function Utf8(c: char): (bytes: seq<int>)
    ensures 1 <= |bytes| <= 4
    ensures forall i :: 0 <= i < |bytes| ==> IsByte(bytes[i])
    ensures |bytes| == 1 <==> c as int < 0x80
  {
    var cp := c as int;
    if cp < 0x80 then [cp]
    else if cp < 0x800 then [0xC0 + cp / 64, 0x80 + cp % 64]
    else if cp < 0x1_0000 then [0xE0 + cp / 4096, 0x80 + (cp / 64) % 64, 0x80 + cp % 64]
    else [0xF0 + cp / 262144, 0x80 + (cp / 4096) % 64, 0x80 + (cp / 64) % 64, 0x80 + cp % 64]
  }

  /** The upper-case hex digit for `d`. */
  function HexDigit(d: int): (c: char)
    requires 0 <= d < 16
    ensures IsHexDigit(c) && !('a' <= c <= 'f')
  {
    if d < 10 then ('0' as int + d) as char else ('A' as int + d - 10) as char
  }

  predicate IsHexDigit(c: char) {
    ('0' <= c <= '9') || ('A' <= c <= 'F')
  }

  /** What may appear in an encoded component: no `&`, `=`, `#`, `+`, `/`,
      `?` or space, so the text stays inside its query parameter. */
  predicate QuerySafe(c: char) {
    Unreserved(c) || c == '%'
  }

  function PercentByte(b: int): (r: string)
    requires IsByte(b)
    ensures |r| == 3 && r[0] == '%' && IsHexDigit(r[1]) && IsHexDigit(r[2])
  {
    ['%', HexDigit(b / 16), HexDigit(b % 16)]
  }

  function PercentBytes(bytes: seq<int>): (r: string)
    requires forall i :: 0 <= i < |bytes| ==> IsByte(bytes[i])
    ensures |r| == 3 * |bytes|
    ensures forall i :: 0 <= i < |r| ==> QuerySafe(r[i])
  {
    if bytes == [] then []
    else
      var head := PercentByte(bytes[0]);
      var tail := PercentBytes(bytes[1..]);
      assert forall i :: 0 <= i < |head| ==> QuerySafe(head[i]);
      head + tail
  }

  function EncodeChar(c: char): (r: string)
    ensures |r| >= 1
    ensures forall i :: 0 <= i < |r| ==> QuerySafe(r[i])
  {
    if Unreserved(c) then [c] else PercentBytes(Utf8(c))
  }

  /** `encodeURIComponent(s)`. */
  function Encode(s: string): (r: string)
    ensures forall i :: 0 <= i < |r| ==> QuerySafe(r[i])
    ensures (forall i :: 0 <= i < |s| ==> Unreserved(s[i])) ==> r == s
  {
    if s == [] then []
    else
      var head := EncodeChar(s[0]);
      var tail := Encode(s[1..]);
      assert (forall i :: 0 <= i < |s| ==> Unreserved(s[i])) ==> head + tail == [s[0]] + s[1..];
      head + tail
  }

  // ---- decoding ----

  function HexValue(c: char): Option<int> {
    if '0' <= c <= '9' then Some(c as int - '0' as int)
    else if 'A' <= c <= 'F' then Some(c as int - 'A' as int + 10)
    else if 'a' <= c <= 'f' then Some(c as int - 'a' as int + 10)
    else None
  }

  /** One `%XX` escape at the front of `s`. */
  function ReadByte(s: string): (r: Option<(int, string)>)
    ensures r.Some? ==> IsByte(r.value.0) && |r.value.1| == |s| - 3
  {
    if |s| < 3 || s[0] != '%' then None
    else
      match (HexValue(s[1]), HexValue(s[2]))
      case (Some(hi), Some(lo)) =>
        if 0 <= hi < 16 && 0 <= lo < 16 then Some((hi * 16 + lo, s[3..])) else None
      case _ => None
  }

  /** `n` escapes at the front of `s`. */
  function ReadBytes(s: string, n: nat): (r: Option<(seq<int>, string)>)
    ensures r.Some? ==> |r.value.0| == n && |r.value.1| == |s| - 3 * n
  {
    if n == 0 then Some(([], s))
    else
      match ReadByte(s)
      case None => None
      case Some((b, rest)) =>
        match ReadBytes(rest, n - 1)
        case None => None
        case Some((bs, rest')) => Some(([b] + bs, rest'))
  }

  /** How many bytes a UTF-8 sequence with this lead byte has (0: invalid lead). */
  function SequenceLength(b0: int): nat {
    if b0 < 0x80 then 1
    else if 0xC0 <= b0 < 0xE0 then 2
    else if 0xE0 <= b0 < 0xF0 then 3
    else if 0xF0 <= b0 < 0xF8 then 4
    else 0
  }

  predicate Continuation(b: int) {
    0x80 <= b < 0xC0
  }

  predicate ScalarValue(cp: int) {
    (0 <= cp < 0xD800) || (0xE000 <= cp < 0x11_0000)
  }

  /** A well-formed UTF-8 sequence to its scalar value; overlong forms,
      surrogates and out-of-range values are rejected, as by
      `decodeURIComponent`. */
  function DecodeUtf8(bytes: seq<int>): Option<char> {
    if |bytes| == 0 || SequenceLength(bytes[0]) != |bytes| then None
    else if |bytes| == 1 then
      if 0 <= bytes[0] then Some(bytes[0] as char) else None
    else if !(forall i :: 1 <= i < |bytes| ==> Continuation(bytes[i])) then None
    else
      var cp :=
        if |bytes| == 2 then (bytes[0] - 0xC0) * 64 + (bytes[1] - 0x80)
        else if |bytes| == 3 then (bytes[0] - 0xE0) * 4096 + (bytes[1] - 0x80) * 64 + (bytes[2] - 0x80)
        else (bytes[0] - 0xF0) * 262144 + (bytes[1] - 0x80) * 4096 + (bytes[2] - 0x80) * 64 + (bytes[3] - 0x80);
      var least := if |bytes| == 2 then 0x80 else if |bytes| == 3 then 0x800 else 0x1_0000;
      if least <= cp && ScalarValue(cp) then Some(cp as char) else None
  }

  /** One character from the front of an encoded string. */
  function DecodeStep(s: string): (r: Option<(char, string)>)
    requires |s| > 0
    ensures r.Some? ==> |r.value.1| < |s|
  {
    if s[0] != '%' then Some((s[0], s[1..]))
    else
      match ReadByte(s)
      case None => None
      case Some((b0, _)) =>
        var n := SequenceLength(b0);
        if n == 0 then None
        else
          match ReadBytes(s, n)
          case None => None
          case Some((bytes, rest)) =>
            match DecodeUtf8(bytes)
            case None => None
            case Some(c) => Some((c, rest))
  }

  /** `decodeURIComponent(s)`; `None` where it throws a URIError. */
  function Decode(s: string): Option<string>
    decreases |s|
  {
    if s == [] then Some([])
    else
      match DecodeStep(s)
      case None => None
      case Some((c, rest)) =>
        match Decode(rest)
        case None => None
        case Some(t) => Some([c] + t)
  }

  // ---- the round trip ----

  lemma HexRoundTrip(b: int)
    requires IsByte(b)
    ensures ReadByte(PercentByte(b)) == Some((b, []))
  {
    var r := PercentByte(b);
    assert HexValue(r[1]) == Some(b / 16);
    assert HexValue(r[2]) == Some(b % 16);
  }

  lemma ReadByteAppend(b: int, rest: string)
    requires IsByte(b)
    ensures ReadByte(PercentByte(b) + rest) == Some((b, rest))
  {
    var s := PercentByte(b) + rest;
    HexRoundTrip(b);
    assert s[..3] == PercentByte(b);
    assert s[3..] == rest;
  }

  lemma {:induction false} ReadBytesAppend(bytes: seq<int>, rest: string)
    requires forall i :: 0 <= i < |bytes| ==> IsByte(bytes[i])
    ensures ReadBytes(PercentBytes(bytes) + rest, |bytes|) == Some((bytes, rest))
    decreases |bytes|
  {
    if bytes != [] {
      var tail := PercentBytes(bytes[1..]) + rest;
      assert PercentBytes(bytes) + rest == PercentByte(bytes[0]) + tail;
      ReadByteAppend(bytes[0], tail);
      ReadBytesAppend(bytes[1..], rest);
      assert ReadByte(PercentBytes(bytes) + rest) == Some((bytes[0], tail));
      assert ReadBytes(tail, |bytes| - 1) == Some((bytes[1..], rest));
      assert [bytes[0]] + bytes[1..] == bytes;
    } else {
      assert PercentBytes(bytes) + rest == rest;
    }
  }

  lemma Utf8Two(c: char)
    requires 0x80 <= c as int < 0x800
    ensures DecodeUtf8(Utf8(c)) == Some(c)
  {
    var cp := c as int;
    var bytes := Utf8(c);
    assert bytes == [0xC0 + cp / 64, 0x80 + cp % 64];
    assert Continuation(bytes[1]);
    assert (bytes[0] - 0xC0) * 64 + (bytes[1] - 0x80) == cp;
  }

  lemma Utf8Three(c: char)
    requires 0x800 <= c as int < 0x1_0000
    ensures DecodeUtf8(Utf8(c)) == Some(c)
  {
    var cp := c as int;
    var bytes := Utf8(c);
    var q := cp / 64;
    assert bytes == [0xE0 + cp / 4096, 0x80 + q % 64, 0x80 + cp % 64];
    assert cp / 4096 == q / 64;
    assert Continuation(bytes[1]) && Continuation(bytes[2]);
    assert (bytes[0] - 0xE0) * 4096 + (bytes[1] - 0x80) * 64 + (bytes[2] - 0x80) == cp;
  }

  lemma Utf8Four(c: char)
    requires 0x1_0000 <= c as int
    ensures DecodeUtf8(Utf8(c)) == Some(c)
  {
    var cp := c as int;
    var bytes := Utf8(c);
    var q := cp / 64;
    var q2 := q / 64;
    assert cp / 4096 == q2;
    assert cp / 262144 == q2 / 64;
    assert bytes == [0xF0 + q2 / 64, 0x80 + q2 % 64, 0x80 + q % 64, 0x80 + cp % 64];
    assert Continuation(bytes[1]) && Continuation(bytes[2]) && Continuation(bytes[3]);
    assert (bytes[0] - 0xF0) * 262144 + (bytes[1] - 0x80) * 4096 + (bytes[2] - 0x80) * 64 + (bytes[3] - 0x80) == cp;
  }

  lemma Utf8RoundTrip(c: char)
    ensures DecodeUtf8(Utf8(c)) == Some(c)
  {
    var cp := c as int;
    if cp < 0x80 {
    } else if cp < 0x800 {
      Utf8Two(c);
    } else if cp < 0x1_0000 {
      Utf8Three(c);
    } else {
      Utf8Four(c);
    }
  }

  lemma DecodeStepEncoded(c: char, rest: string)
    ensures DecodeStep(EncodeChar(c) + rest) == Some((c, rest))
  {
    if Unreserved(c) {
      assert (EncodeChar(c) + rest)[1..] == rest;
    } else {
      var bytes := Utf8(c);
      assert SequenceLength(bytes[0]) == |bytes|;
      Utf8RoundTrip(c);
      DecodePercentStep(bytes, c, rest);
    }
  }

  /** One percent-encoded character, read back from the front of a string. */
  lemma DecodePercentStep(bytes: seq<int>, c: char, rest: string)
    requires |bytes| > 0 && forall i :: 0 <= i < |bytes| ==> IsByte(bytes[i])
    requires SequenceLength(bytes[0]) == |bytes| && DecodeUtf8(bytes) == Some(c)
    ensures DecodeStep(PercentBytes(bytes) + rest) == Some((c, rest))
  {
    var s := PercentBytes(bytes) + rest;
    var tail := PercentBytes(bytes[1..]) + rest;
    PercentBytesCons(bytes, rest);
    ReadByteAppend(bytes[0], tail);
    ReadBytesAppend(bytes, rest);
    DecodeStepOf(s, bytes, c, rest);
  }

  lemma PercentBytesCons(bytes: seq<int>, rest: string)
    requires |bytes| > 0 && forall i :: 0 <= i < |bytes| ==> IsByte(bytes[i])
    ensures PercentBytes(bytes) + rest == PercentByte(bytes[0]) + (PercentBytes(bytes[1..]) + rest)
  {
    var head := PercentByte(bytes[0]);
    var tail := PercentBytes(bytes[1..]);
    assert PercentBytes(bytes) == head + tail;
    Strings.AppendAssoc(head, tail, rest);
  }

  lemma DecodeStepOf(s: string, bytes: seq<int>, c: char, rest: string)
    requires |s| > 0 && s[0] == '%' && |bytes| > 0
    requires ReadByte(s).Some? && ReadByte(s).value.0 == bytes[0] && SequenceLength(bytes[0]) == |bytes|
    requires ReadBytes(s, |bytes|) == Some((bytes, rest)) && DecodeUtf8(bytes) == Some(c)
    ensures DecodeStep(s) == Some((c, rest))
  {
  }

  /** Decoding undoes encoding, for every string. */
  lemma {:induction false} DecodeEncode(s: string)
    ensures Decode(Encode(s)) == Some(s)
    decreases |s|
  {
    if s != [] {
      var tail := Encode(s[1..]);
      EncodeCons(s);
      DecodeStepEncoded(s[0], tail);
      DecodeEncode(s[1..]);
      DecodeCons(EncodeChar(s[0]) + tail, s[0], tail, s[1..]);
      assert [s[0]] + s[1..] == s;
    }
  }

  /** Encoding works character by character from the front. */
  lemma EncodeCons(s: string)
    requires s != []
    ensures Encode(s) == EncodeChar(s[0]) + Encode(s[1..])
  {
  }

  /** Decoding a string whose first character and remainder both decode. */
  lemma DecodeCons(s: string, c: char, rest: string, t: string)
    requires s != [] && DecodeStep(s) == Some((c, rest)) && Decode(rest) == Some(t)
    ensures Decode(s) == Some([c] + t)
  {
  }
}
