/**
 * `encodeURIComponent`, as used to put an e-mail address into a query
 * string: characters outside the unreserved set are written as the
 * percent-escaped bytes of their UTF-8 encoding, with upper-case hex.
 */
module Uri {
  import opened Common

  /** The characters `encodeURIComponent` leaves as they are. */
  predicate IsUnreserved(c: char) {
    ('A' <= c <= 'Z') || ('a' <= c <= 'z') || ('0' <= c <= '9') ||
    c == '-' || c == '_' || c == '.' || c == '!' || c == '~' || c == '*' ||
    c == '\'' || c == '(' || c == ')'
  }

  predicate IsByte(b: int) {
    0 <= b < 256
  }

  /** The UTF-8 encoding of one Unicode scalar value. */
  function Utf8(c: char): (bs: seq<int>)
    ensures 1 <= |bs| <= 4
    ensures forall i | 0 <= i < |bs| :: IsByte(bs[i])
    ensures (c as int) < 0x80 <==> bs == [c as int]
  {
    var n := c as int;
    if n < 0x80 then [n]
    else if n < 0x800 then [0xC0 + n / 64, 0x80 + n % 64]
    else if n < 0x10000 then [0xE0 + n / 4096, 0x80 + (n / 64) % 64, 0x80 + n % 64]
    else [0xF0 + n / 262144, 0x80 + (n / 4096) % 64, 0x80 + (n / 64) % 64, 0x80 + n % 64]
  }

  function Utf8Bytes(s: string): seq<int> {
    if s == [] then [] else Utf8(s[0]) + Utf8Bytes(s[1..])
  }

  function HexUpper(d: nat): char
    requires d < 16
  {
    "0123456789ABCDEF"[d]
  }

  predicate IsHexUpper(c: char) {
    ('0' <= c <= '9') || ('A' <= c <= 'F')
  }

  function HexValue(c: char): (d: nat)
    requires IsHexUpper(c)
    ensures d < 16
  {
    if c <= '9' then c as int - '0' as int else c as int - 'A' as int + 10
  }

  lemma HexRoundTrip(d: nat)
    requires d < 16
    ensures IsHexUpper(HexUpper(d)) && HexValue(HexUpper(d)) == d
  {
  }

  /** "%XY" for each byte. */
  function PercentBytes(bs: seq<int>): (r: string)
    requires forall i | 0 <= i < |bs| :: IsByte(bs[i])
    ensures |r| == 3 * |bs|
  {
    if bs == [] then []
    else
      assert IsByte(bs[0]);
      ['%', HexUpper(bs[0] / 16), HexUpper(bs[0] % 16)] + PercentBytes(bs[1..])
  }

  function EncodeChar(c: char): string {
    if IsUnreserved(c) then [c] else PercentBytes(Utf8(c))
  }

  function EncodeURIComponent(s: string): (r: string)
    ensures |r| >= |s|
  {
    if s == [] then [] else EncodeChar(s[0]) + EncodeURIComponent(s[1..])
  }

  /** Reads an encoded component back to bytes: an unreserved character
      stands for its own code, "%XY" for the byte XY; anything else is
      rejected. */
  function PercentDecode(s: string): Option<seq<int>> {
    if s == [] then Some([])
    else if s[0] == '%' then
      if |s| >= 3 && IsHexUpper(s[1]) && IsHexUpper(s[2]) then
        match PercentDecode(s[3..])
        case Some(rest) => Some([16 * HexValue(s[1]) + HexValue(s[2])] + rest)
        case None => None
      else None
    else if IsUnreserved(s[0]) then
      match PercentDecode(s[1..])
      case Some(rest) => Some([s[0] as int] + rest)
      case None => None
    else None
  }

  function Prefix(bs: seq<int>, r: Option<seq<int>>): Option<seq<int>> {
    match r
    case Some(rest) => Some(bs + rest)
    case None => None
  }

  lemma DecodeEscape(x: char, y: char, tail: string)
    requires IsHexUpper(x) && IsHexUpper(y)
    ensures PercentDecode(['%', x, y] + tail) == Prefix([16 * HexValue(x) + HexValue(y)], PercentDecode(tail))
  {
    assert (['%', x, y] + tail)[3..] == tail;
  }

  lemma PrefixPrefix(a: seq<int>, b: seq<int>, r: Option<seq<int>>)
    ensures Prefix(a, Prefix(b, r)) == Prefix(a + b, r)
  {
    if r.Some? {
      assert a + (b + r.value) == (a + b) + r.value;
    }
  }

  lemma {:induction false} DecodePercentBytes(bs: seq<int>, rest: string)
    requires forall i | 0 <= i < |bs| :: IsByte(bs[i])
    ensures PercentDecode(PercentBytes(bs) + rest) == Prefix(bs, PercentDecode(rest))
  {
    if bs == [] {
      assert PercentBytes(bs) + rest == rest;
      if PercentDecode(rest).Some? {
        assert bs + PercentDecode(rest).value == PercentDecode(rest).value;
      }
    } else {
      var b := bs[0];
      assert IsByte(b);
      HexRoundTrip(b / 16);
      HexRoundTrip(b % 16);
      var x, y := HexUpper(b / 16), HexUpper(b % 16);
      var tail := PercentBytes(bs[1..]) + rest;
      assert PercentBytes(bs) == ['%', x, y] + PercentBytes(bs[1..]);
      assert PercentBytes(bs) + rest == ['%', x, y] + tail;
      DecodeEscape(x, y, tail);
      DecodePercentBytes(bs[1..], rest);
      PrefixPrefix([b], bs[1..], PercentDecode(rest));
      assert [b] + bs[1..] == bs;
    }
  }

  /** Percent-decoding the encoding gives back the UTF-8 bytes of the
      input: the encoding loses nothing. */
  lemma {:induction false} DecodeEncode(s: string)
    ensures PercentDecode(EncodeURIComponent(s)) == Some(Utf8Bytes(s))
  {
    if s != [] {
      var c := s[0];
      DecodeEncode(s[1..]);
      var rest := EncodeURIComponent(s[1..]);
      if IsUnreserved(c) {
        assert ([c] + rest)[1..] == rest;
      } else {
        DecodePercentBytes(Utf8(c), rest);
      }
    }
  }

  /** Every character of the encoding is unreserved or '%', so it carries
      no '&', '=', '#', '?', '+', '/' or space into a query string. */
  lemma {:induction false} EncodedIsSafe(s: string)
    ensures forall i | 0 <= i < |EncodeURIComponent(s)| ::
      IsUnreserved(EncodeURIComponent(s)[i]) || EncodeURIComponent(s)[i] == '%'
  {
    if s != [] {
      EncodedIsSafe(s[1..]);
      var head := EncodeChar(s[0]);
      if !IsUnreserved(s[0]) {
        PercentBytesSafe(Utf8(s[0]));
      }
      var r := EncodeURIComponent(s);
      forall i | 0 <= i < |r|
        ensures IsUnreserved(r[i]) || r[i] == '%'
      {
        if i >= |head| {
          assert r[i] == EncodeURIComponent(s[1..])[i - |head|];
        }
      }
    }
  }

  lemma {:induction false} PercentBytesSafe(bs: seq<int>)
    requires forall i | 0 <= i < |bs| :: IsByte(bs[i])
    ensures forall i | 0 <= i < |PercentBytes(bs)| ::
      IsUnreserved(PercentBytes(bs)[i]) || PercentBytes(bs)[i] == '%'
  {
    if bs != [] {
      PercentBytesSafe(bs[1..]);
      var r := PercentBytes(bs);
      forall i | 0 <= i < |r|
        ensures IsUnreserved(r[i]) || r[i] == '%'
      {
        if i >= 3 {
          assert r[i] == PercentBytes(bs[1..])[i - 3];
        }
      }
    }
  }

  /** A value made only of unreserved characters is left as it is. */
  lemma {:induction false} UnreservedUnchanged(s: string)
    requires forall i | 0 <= i < |s| :: IsUnreserved(s[i])
    ensures EncodeURIComponent(s) == s
  {
    if s != [] {
      UnreservedUnchanged(s[1..]);
      assert [s[0]] + s[1..] == s;
    }
  }
}
