/**
 * Payload transformations used to slip probes past filters: percent, double-percent, Unicode-escape,
 * HTML-entity and hexadecimal encodings, alternating letter case, SQL comment padding, and the
 * variant list built from them. Each encoding is paired with the decoder that undoes it, or with the
 * reason none exists.
 */
module Evasion {
  import opened Wrappers
  import opened Text
  import PercentEncoding

  /** `url_encode`. */
  function UrlEncode(payload: string): string {
    PercentEncoding.Encode(payload)
  }

  /** `double_encode`: the percent-encoding of the percent-encoding. */
  function DoubleEncode(payload: string): string {
    PercentEncoding.Encode(PercentEncoding.Encode(payload))
  }

  /** Double encoding differs from single encoding exactly in that every '%' becomes "%25". */
  lemma DoubleEncodeEscapesPercent(payload: string)
    ensures DoubleEncode(payload) == ReplaceChar(UrlEncode(payload), '%', "%25")
  {
    PercentEncoding.EncodeAlphabet(payload);
    PercentEncoding.EncodeOfEncoded(PercentEncoding.Encode(payload));
  }

  // ---------------------------------------------------------------------------------------------
  // Unicode escapes
  // ---------------------------------------------------------------------------------------------

  /** `format!("\\u{:04x}", c as u32)`: a backslash, 'u' and at least four lowercase hex digits. */
  function UnicodeEscape(c: char): (e: string)
    ensures |e| >= 6 && e[0] == '\\' && e[1] == 'u'
    ensures '\\' !in e[2..]
  {
    var digits := PadZeros(Hex(c as int), 4);
    assert forall k | 0 <= k < |digits| :: IsHexDigit(digits[k]);
    "\\u" + digits
  }

  /** `unicode_encode`. */
  function UnicodeEncode(s: string): (t: string)
    ensures s != [] ==> |t| > 0 && t[0] == '\\'
  {
    if s == [] then [] else UnicodeEscape(s[0]) + UnicodeEncode(s[1..])
  }

  /** A Unicode scalar value, if `n` is one. */
  function CharOf(n: nat): (r: Option<char>)
    ensures r.Some? ==> r.value as int == n
  {
    if n < 0xD800 || 0xE000 <= n < 0x11_0000 then Some(n as char) else None
  }

  predicate AllHex(s: string) {
    forall k | 0 <= k < |s| :: IsHexDigit(s[k])
  }

  /**
   * The character of the escape at the start of `s` and the length of that escape, which runs
   * to the next backslash or to the end.
   */
  function FirstEscape(s: string): (r: Option<(char, nat)>)
    ensures r.Some? ==> 2 < r.value.1 <= |s|
  {
    if |s| < 2 || s[0] != '\\' || s[1] != 'u' then None
    else
      var j := 2 + IndexOf(s[2..], '\\');
      match DigitsChar(s[2..j])
      case None => None
      case Some(c) => Some((c, j))
  }

  /** The character whose code point a non-empty run of hex digits spells, if any. */
  function DigitsChar(digits: string): Option<char> {
    if digits == [] || !AllHex(digits) then None else CharOf(HexValue(digits))
  }

  /** Reads back a sequence of `\uXXXX` escapes; None for anything else. */
  function UnicodeDecode(s: string): Option<string>
    decreases |s|
  {
    if s == [] then Some([])
    else match FirstEscape(s)
      case None => None
      case Some((c, j)) =>
        match UnicodeDecode(s[j..])
        case None => None
        case Some(rest) => Some([c] + rest)
  }

  /** The digits of one escape hold the character's code point. */
  lemma UnicodeEscapeValue(c: char)
    ensures AllHex(UnicodeEscape(c)[2..])
    ensures HexValue(UnicodeEscape(c)[2..]) == c as int
  {
    var h := Hex(c as int);
    var digits := PadZeros(h, 4);
    assert UnicodeEscape(c)[2..] == digits;
    HexValueLeadingZeros(|digits| - |h|, h);
    HexRoundTrip(c as int);
  }

  /** An escape followed by further escapes is read as its character, up to its own end. */
  lemma FirstEscapeOf(c: char, rest: string)
    requires rest == [] || rest[0] == '\\'
    ensures FirstEscape(UnicodeEscape(c) + rest) == Some((c, |UnicodeEscape(c)|))
  {
    UnicodeEscapeValue(c);
    FirstEscapeSplit(UnicodeEscape(c), c, rest);
  }

  lemma FirstEscapeSplit(e: string, c: char, rest: string)
    requires |e| > 2 && e[0] == '\\' && e[1] == 'u' && '\\' !in e[2..]
    requires DigitsChar(e[2..]) == Some(c)
    requires rest == [] || rest[0] == '\\'
    ensures FirstEscape(e + rest) == Some((c, |e|))
  {
    var t := e + rest;
    assert t[2..] == e[2..] + rest;
    IndexOfAfter(e[2..], rest, '\\');
    assert t[2..|e|] == e[2..];
  }

  /** Decoding an escape followed by further escapes yields its character, then the rest. */
  lemma UnicodeDecodeStep(c: char, rest: string)
    requires rest == [] || rest[0] == '\\'
    ensures UnicodeDecode(UnicodeEscape(c) + rest)
         == if UnicodeDecode(rest).Some? then Some([c] + UnicodeDecode(rest).value) else None
  {
    var e := UnicodeEscape(c);
    FirstEscapeOf(c, rest);
    assert (e + rest)[|e|..] == rest;
  }

  /** Unicode escaping loses nothing: decoding the escapes gives back the payload. */
  lemma {:induction false} UnicodeRoundTrip(s: string)
    ensures UnicodeDecode(UnicodeEncode(s)) == Some(s)
  {
    if s != [] {
      UnicodeDecodeStep(s[0], UnicodeEncode(s[1..]));
      UnicodeRoundTrip(s[1..]);
      assert [s[0]] + s[1..] == s;
    }
  }

  /** Characters of the Basic Multilingual Plane become exactly six characters each. */
  lemma {:induction false} UnicodeEncodeBmpLength(s: string)
    requires forall k | 0 <= k < |s| :: s[k] as int < 0x1_0000
    ensures |UnicodeEncode(s)| == 6 * |s|
  {
    if s != [] {
      HexWidth(s[0] as int);
      UnicodeEncodeBmpLength(s[1..]);
    }
  }

  // ---------------------------------------------------------------------------------------------
  // HTML entities
  // ---------------------------------------------------------------------------------------------

  /** The entity `html_encode` writes for one character. */
  function HtmlEntity(c: char): (e: string)
    ensures |e| >= 4 && e[0] == '&' && e[|e| - 1] == ';'
    ensures ';' !in e[..|e| - 1]
  {
    match c
    case '<' => "&lt;"
    case '>' => "&gt;"
    case '"' => "&quot;"
    case '\'' => "&#x27;"
    case '&' => "&amp;"
    case _ => "&#x" + Hex(c as int) + ";"
  }

  /** `html_encode`: every character, letters included, becomes an entity. */
  function HtmlEncode(s: string): string {
    if s == [] then [] else HtmlEntity(s[0]) + HtmlEncode(s[1..])
  }

  /** The character an entity stands for, if it is one `html_encode` can write. */
  function EntityChar(t: string): Option<char> {
    if t == "&lt;" then Some('<')
    else if t == "&gt;" then Some('>')
    else if t == "&quot;" then Some('"')
    else if t == "&#x27;" then Some('\'')
    else if t == "&amp;" then Some('&')
    else if |t| >= 5 && t[..3] == "&#x" && t[|t| - 1] == ';'
      && forall k | 3 <= k < |t| - 1 :: IsHexDigit(t[k])
    then CharOf(HexValue(t[3..|t| - 1]))
    else None
  }

  /** Reads back a sequence of entities; None for anything else. */
  function HtmlDecode(s: string): Option<string>
    decreases |s|
  {
    if s == [] then Some([])
    else
      var i := IndexOf(s, ';');
      if i == |s| then None
      else match EntityChar(s[..i + 1])
        case None => None
        case Some(c) =>
          match HtmlDecode(s[i + 1..])
          case None => None
          case Some(rest) => Some([c] + rest)
  }

  /** The parts of a numeric entity around its hexadecimal digits. */
  lemma NumericEntityParts(h: string)
    requires |h| > 0 && AllHex(h)
    ensures var t := "&#x" + h + ";";
      |t| >= 5 && t[..3] == "&#x" && t[1] == '#' && t[|t| - 1] == ';' && t[3..|t| - 1] == h
      && forall k | 3 <= k < |t| - 1 :: IsHexDigit(t[k])
  {
    var t := "&#x" + h + ";";
    forall k | 3 <= k < |t| - 1 ensures IsHexDigit(t[k]) {
      assert t[k] == h[k - 3];
    }
  }

  /** Only the digits "27" make a numeric entity that spells the apostrophe's. */
  lemma NotApostropheEntity(h: string)
    requires |h| > 0 && AllHex(h) && HexValue(h) != 0x27
    ensures "&#x" + h + ";" != "&#x27;"
  {
    NumericEntityParts(h);
    assert "&#x27;"[3..5] == "27";
    assert HexValue("27") == 0x27;
  }

  /** A character without a named entity is written and read back as its code point. */
  lemma NumericEntityRoundTrip(c: char)
    requires c != '<' && c != '>' && c != '"' && c != '\'' && c != '&'
    ensures EntityChar(HtmlEntity(c)) == Some(c)
  {
    var h := Hex(c as int);
    var t := HtmlEntity(c);
    assert t == "&#x" + h + ";";
    NumericEntityParts(h);
    HexRoundTrip(c as int);
    NotApostropheEntity(h);
    assert t[1] == '#';
  }

  lemma QuoteEntityRoundTrip()
    ensures EntityChar(HtmlEntity('"')) == Some('"')
  {
    assert "&quot;"[1] == 'q';
  }

  lemma ApostropheEntityRoundTrip()
    ensures EntityChar(HtmlEntity('\'')) == Some('\'')
  {
    assert "&#x27;"[1] == '#';
  }

  /** Every entity `html_encode` writes reads back as its character. */
  lemma EntityRoundTrip(c: char)
    ensures EntityChar(HtmlEntity(c)) == Some(c)
  {
    if c == '"' {
      QuoteEntityRoundTrip();
    } else if c == '\'' {
      ApostropheEntityRoundTrip();
    } else if c != '<' && c != '>' && c != '&' {
      NumericEntityRoundTrip(c);
    }
  }

  /** HTML encoding loses nothing: decoding the entities gives back the payload. */
  lemma {:induction false} HtmlRoundTrip(s: string)
    ensures HtmlDecode(HtmlEncode(s)) == Some(s)
  {
    if s != [] {
      var e := HtmlEntity(s[0]);
      var rest := HtmlEncode(s[1..]);
      var t := e + rest;
      assert t == e[..|e| - 1] + ([';'] + rest);
      IndexOfAfter(e[..|e| - 1], [';'] + rest, ';');
      assert t[..|e|] == e;
      assert t[|e|..] == rest;
      EntityRoundTrip(s[0]);
      HtmlRoundTrip(s[1..]);
      assert [s[0]] + s[1..] == s;
    }
  }

  /** A numeric entity holds no markup or attribute delimiter. */
  lemma HexEntityNoMarkup(h: string)
    requires AllHex(h)
    ensures var e := "&#x" + h + ";"; '<' !in e && '>' !in e && '"' !in e && '\'' !in e
  {
    var e := "&#x" + h + ";";
    forall k | 0 <= k < |e| ensures e[k] != '<' && e[k] != '>' && e[k] != '"' && e[k] != '\'' {
      if 3 <= k < |e| - 1 {
        assert e[k] == h[k - 3];
      }
    }
  }

  /** An entity holds no markup or attribute delimiter. */
  lemma EntityNoMarkup(c: char)
    ensures var e := HtmlEntity(c); '<' !in e && '>' !in e && '"' !in e && '\'' !in e
  {
    if c != '<' && c != '>' && c != '"' && c != '\'' && c != '&' {
      var h := Hex(c as int);
      assert HtmlEntity(c) == "&#x" + h + ";";
      HexEntityNoMarkup(h);
    }
  }

  /** No character that delimits HTML markup or attributes survives encoding. */
  lemma {:induction false} HtmlEncodeNoMarkup(s: string)
    ensures '<' !in HtmlEncode(s) && '>' !in HtmlEncode(s)
    ensures '"' !in HtmlEncode(s) && '\'' !in HtmlEncode(s)
  {
    if s != [] {
      HtmlEncodeNoMarkup(s[1..]);
      EntityNoMarkup(s[0]);
      assert HtmlEncode(s) == HtmlEntity(s[0]) + HtmlEncode(s[1..]);
    }
  }

  // ---------------------------------------------------------------------------------------------
  // Hexadecimal
  // ---------------------------------------------------------------------------------------------

  /** `hex_encode`: the unpadded lowercase code points, run together. */
  function HexEncode(s: string): (t: string)
    ensures forall k | 0 <= k < |t| :: IsHexDigit(t[k])
  {
    if s == [] then [] else Hex(s[0] as int) + HexEncode(s[1..])
  }

  /**
   * With no padding and no separator the encoding is ambiguous: U+0001 U+0002 and U+0012 both
   * encode to "12", so no decoder can exist.
   */
  lemma HexEncodeNotInjective()
    ensures HexEncode(['\U{1}', '\U{2}']) == HexEncode(['\U{12}']) == "12"
  {
    assert HexEncode(['\U{2}']) == "2";
    assert Hex(0x12) == Hex(1) + [HexDigit(2)];
  }

  /** Characters from U+0010 to U+00FF, printable ASCII among them, take exactly two digits each. */
  lemma {:induction false} HexEncodeByteWidth(s: string)
    requires forall k | 0 <= k < |s| :: 0x10 <= s[k] as int < 0x100
    ensures |HexEncode(s)| == 2 * |s|
  {
    if s != [] {
      var n := s[0] as int;
      assert Hex(n) == Hex(n / 16) + [HexDigit(n % 16)];
      HexEncodeByteWidth(s[1..]);
    }
  }

  // ---------------------------------------------------------------------------------------------
  // Letter case
  // ---------------------------------------------------------------------------------------------

  /** The case `mixed_case` gives the character at index `i`. */
  function CaseAt(i: nat, c: char): char {
    if i % 2 == 0 then UpperChar(c) else LowerChar(c)
  }

  /** `mixed_case`: upper case at even indices, lower case at odd ones. */
  function MixedCase(s: string): (t: string)
    ensures |t| == |s|
    ensures forall k | 0 <= k < |s| :: t[k] == CaseAt(k, s[k])
  {
    if s == [] then [] else MixedCase(s[..|s| - 1]) + [CaseAt(|s| - 1, s[|s| - 1])]
  }

  /** Applying the alternation twice changes nothing more. */
  lemma MixedCaseIdempotent(s: string)
    ensures MixedCase(MixedCase(s)) == MixedCase(s)
  {
  }

  /** The transformed payload is the same text up to letter case. */
  lemma MixedCaseKeepsText(s: string)
    ensures Lower(MixedCase(s)) == Lower(s)
  {
  }

  lemma MixedCaseSelect()
    ensures MixedCase("SELECT") == "SeLeCt"
  {
    var t := MixedCase("SELECT");
    forall k | 0 <= k < 6 ensures t[k] == "SeLeCt"[k] {}
  }

  // ---------------------------------------------------------------------------------------------
  // SQL comment padding
  // ---------------------------------------------------------------------------------------------

  /** `sql_comment_evasion`: every space becomes an empty SQL comment. */
  function SqlCommentEvasion(payload: string): string {
    ReplaceChar(payload, ' ', "/**/")
  }

  /** The result has no space left and is three characters longer per space. */
  lemma SqlCommentEvasionShape(payload: string)
    ensures ' ' !in SqlCommentEvasion(payload)
    ensures |SqlCommentEvasion(payload)| == |payload| + 3 * Count(payload, ' ')
  {
    ReplaceCharLength(payload, ' ', "/**/");
  }

  /** `obfuscate_whitespace`: spaces become comments, then each '=' is wrapped in comments. */
  function ObfuscateWhitespace(payload: string): string {
    ReplaceChar(ReplaceChar(payload, ' ', "/**/"), '=', "/**/=/**/")
  }

  /** No space is left. */
  lemma ObfuscateWhitespaceNoSpace(payload: string)
    ensures ' ' !in ObfuscateWhitespace(payload)
  {
    var mid := ReplaceChar(payload, ' ', "/**/");
    if ' ' in ObfuscateWhitespace(payload) {
      ReplaceCharFrom(mid, '=', "/**/=/**/", ' ');
    }
  }

  /** Every '=' of the payload is still there, exactly once. */
  lemma ObfuscateWhitespaceKeepsEquals(payload: string)
    ensures Count(ObfuscateWhitespace(payload), '=') == Count(payload, '=')
  {
    var mid := ReplaceChar(payload, ' ', "/**/");
    ReplaceCharCount(payload, ' ', "/**/", '=');
    assert Count("/**/", '=') == 0;
    assert Count("/**/=/**/", '=') == 1;
    ReplaceCharCountSelf(mid, '=', "/**/=/**/");
  }

  /** A payload without '=' gets the same result as `sql_comment_evasion`. */
  lemma ObfuscateWithoutEquals(payload: string)
    requires '=' !in payload
    ensures ObfuscateWhitespace(payload) == SqlCommentEvasion(payload)
  {
    var mid := ReplaceChar(payload, ' ', "/**/");
    if '=' in mid {
      ReplaceCharFrom(payload, ' ', "/**/", '=');
    }
  }

  /** Replacing `c` by an `r` holding `c` once keeps the number of `c`. */
  lemma {:induction false} ReplaceCharCountSelf(s: string, c: char, r: string)
    requires Count(r, c) == 1
    ensures Count(ReplaceChar(s, c, r), c) == Count(s, c)
  {
    if s != [] {
      ReplaceCharCountSelf(s[1..], c, r);
      var head := if s[0] == c then r else [s[0]];
      CountAppend(head, ReplaceChar(s[1..], c, r), c);
    }
  }

  // ---------------------------------------------------------------------------------------------
  // Injections and variants
  // ---------------------------------------------------------------------------------------------

  /** `null_byte_inject`: an encoded NUL and an image extension after the payload. */
  function NullByteInject(payload: string): (t: string)
    ensures |t| == |payload| + 7
    ensures t[..|payload|] == payload && t[|payload|..] == "%00.jpg"
  {
    payload + "%00.jpg"
  }

  /** `crlf_inject`: an encoded line break before the payload. */
  function CrlfInject(payload: string): (t: string)
    ensures |t| == |payload| + 6
    ensures t[..6] == "%0d%0a" && t[6..] == payload
  {
    "%0d%0a" + payload
  }

  /** The payload names a SQL keyword that the comment-padding variants target. */
  predicate MentionsSqlKeyword(payload: string) {
    Contains(payload, "SELECT") || Contains(payload, "UNION")
  }

  /** `generate_variants`. */
  function GenerateVariants(payload: string): (vs: seq<string>)
    ensures |vs| == if MentionsSqlKeyword(payload) then 6 else 4
    ensures vs[0] == payload
    ensures vs[1] == UrlEncode(payload) && vs[2] == DoubleEncode(payload) && vs[3] == MixedCase(payload)
  {
    var base := [payload, UrlEncode(payload), DoubleEncode(payload), MixedCase(payload)];
    if MentionsSqlKeyword(payload) then
      base + [SqlCommentEvasion(payload), ObfuscateWhitespace(payload)]
    else base
  }

  /** A payload naming SELECT gets all six variants, the two comment-padded ones included. */
  lemma VariantsOfSelect()
    ensures |GenerateVariants("SELECT * FROM users")| == 6
  {
    assert OccursAt("SELECT * FROM users", "SELECT", 0);
  }
}
