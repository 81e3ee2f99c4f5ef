/**
 * Percent-encoding as the `urlencoding::encode` call in the detectors does it: every byte of the
 * UTF-8 encoding that is not an unreserved character (section 2.3 of RFC 3986: ALPHA, DIGIT,
 * '-', '.', '_', '~') becomes '%' followed by two upper-case hexadecimal digits (section 2.1).
 */
module PercentEncoding {
  import opened Text

  /** Unreserved characters of section 2.3 of RFC 3986. */
  predicate Unreserved(c: char) {
    ('A' <= c <= 'Z') || ('a' <= c <= 'z') || ('0' <= c <= '9') || c == '-' || c == '.' || c == '_' || c == '~'
  }

  /** The bytes of the UTF-8 encoding of one character. */
  function Utf8Bytes(c: char): (bs: seq<nat>)
    ensures |bs| == Utf8Width(c)
    ensures forall k | 0 <= k < |bs| :: bs[k] < 256
    ensures c as int < 0x80 ==> bs == [c as int]
    ensures c as int >= 0x80 ==> forall k | 0 <= k < |bs| :: bs[k] >= 0x80
  {
    var n := c as int;
    if n < 0x80 then [n]
    else if n < 0x800 then [0xC0 + n / 64, 0x80 + n % 64]
    else if n < 0x10000 then [0xE0 + n / 4096, 0x80 + (n / 64) % 64, 0x80 + n % 64]
    else [0xF0 + n / 262144, 0x80 + (n / 4096) % 64, 0x80 + (n / 64) % 64, 0x80 + n % 64]
  }

  function UpperHexDigit(d: nat): (c: char)
    requires d < 16
    ensures ('0' <= c <= '9') || ('A' <= c <= 'F')
  {
    "0123456789ABCDEF"[d]
  }

  /** `%XX` for one byte. */
  function PercentByte(b: nat): (s: string)
    requires b < 256
    ensures |s| == 3 && s[0] == '%'
  {
    ['%', UpperHexDigit(b / 16), UpperHexDigit(b % 16)]
  }

  function PercentBytes(bs: seq<nat>): (s: string)
    requires forall k | 0 <= k < |bs| :: bs[k] < 256
    ensures |s| == 3 * |bs|
  {
    if bs == [] then [] else PercentByte(bs[0]) + PercentBytes(bs[1..])
  }

  function EncodeChar(c: char): string {
    if Unreserved(c) then [c] else PercentBytes(Utf8Bytes(c))
  }

  /** `urlencoding::encode(s)`. */
  function Encode(s: string): string {
    if s == [] then [] else EncodeChar(s[0]) + Encode(s[1..])
  }

  /** What can appear in an encoded string: unreserved characters, '%' and upper-case hex digits. */
  predicate EncodedChar(c: char) {
    Unreserved(c) || c == '%'
  }

  lemma {:induction false} PercentBytesChars(bs: seq<nat>)
    requires forall k | 0 <= k < |bs| :: bs[k] < 256
    ensures forall k | 0 <= k < |PercentBytes(bs)| :: EncodedChar(PercentBytes(bs)[k])
  {
    if bs != [] {
      PercentBytesChars(bs[1..]);
      var h := PercentByte(bs[0]);
      assert forall k | 0 <= k < |h| :: EncodedChar(h[k]);
    }
  }

  /**
   * The encoding of any string is made of unreserved characters and '%' only, so it holds no '&',
   * '=', '#', '?' or space: a probe value cannot add a query parameter or a fragment.
   */
  lemma {:induction false} EncodeAlphabet(s: string)
    ensures forall k | 0 <= k < |Encode(s)| :: EncodedChar(Encode(s)[k])
  {
    if s != [] {
      EncodeAlphabet(s[1..]);
      var c := s[0];
      if !Unreserved(c) {
        PercentBytesChars(Utf8Bytes(c));
      }
    }
  }

  lemma EncodeHasNoDelimiters(s: string)
    ensures '&' !in Encode(s) && '=' !in Encode(s) && '#' !in Encode(s) && '?' !in Encode(s)
  {
    EncodeAlphabet(s);
  }

  /** Unreserved text is left as it is. */
  lemma {:induction false} EncodeUnreserved(s: string)
    requires forall k | 0 <= k < |s| :: Unreserved(s[k])
    ensures Encode(s) == s
  {
    if s != [] {
      EncodeUnreserved(s[1..]);
    }
  }

  /**
   * Encoding an already encoded string only rewrites its '%' signs, each to "%25": this is what
   * double encoding does.
   */
  lemma {:induction false} EncodeOfEncoded(t: string)
    requires forall k | 0 <= k < |t| :: EncodedChar(t[k])
    ensures Encode(t) == ReplaceChar(t, '%', "%25")
  {
    if t != [] {
      EncodeOfEncoded(t[1..]);
      if t[0] == '%' {
        assert Utf8Bytes('%') == [0x25];
        assert PercentBytes([0x25]) == PercentByte(0x25) + PercentBytes([]);
        assert PercentByte(0x25) == "%25";
      }
    }
  }

  /** The apostrophe becomes "%27", as the evasion test for `' OR '1'='1` expects. */
  lemma EncodeApostrophe()
    ensures Encode("'") == "%27"
    ensures Contains(Encode("' OR '1'='1"), "%27")
  {
    assert Utf8Bytes('\'') == [0x27];
    assert PercentByte(0x27) == "%27";
    var e := Encode("' OR '1'='1");
    assert e == EncodeChar('\'') + Encode(" OR '1'='1");
    assert OccursAt(e, "%27", 0);
  }
}
