/**
 * `encodeURIComponent` (section 19.2.6.5 of ECMA-262): every character outside the
 * component-unreserved set (the unreserved characters of section 2.3 of RFC 3986 plus
 * `!*'()`) is replaced by the percent-encoded octets of its UTF-8 form (section 2.1 of
 * RFC 3986, upper-case hexadecimal digits). Characters are Unicode scalar values, so the
 * lone-surrogate URIError cannot arise.
 */
module UriComponent {
  import opened Wrappers
  import opened SeqLemmas

  /** The characters `encodeURIComponent` leaves as they are. */
  predicate IsComponentUnreserved(c: char) {
    ('A' <= c <= 'Z') || ('a' <= c <= 'z') || ('0' <= c <= '9') ||
    c == '-' || c == '_' || c == '.' || c == '!' || c == '~' || c == '*' || c == '\'' || c == '(' || c == ')'
  }

  predicate IsUpperHexDigit(c: char) {
    ('0' <= c <= '9') || ('A' <= c <= 'F')
  }

  function HexDigit(n: nat): (c: char)
    requires n < 16
    ensures IsUpperHexDigit(c)
  {
    "0123456789ABCDEF"[n]
  }

  function HexValue(c: char): (r: Option<nat>)
    ensures r.Some? <==> IsUpperHexDigit(c)
    ensures r.Some? ==> r.value < 16
  {
    if '0' <= c <= '9' then Some(c as nat - '0' as nat)
    else if 'A' <= c <= 'F' then Some(c as nat - 'A' as nat + 10)
    else None
  }

  lemma HexValueOfDigit(n: nat)
    requires n < 16
    ensures HexValue(HexDigit(n)) == Some(n)
  {
  }

  /** An octet of a UTF-8 sequence. */
  type Octet = b: nat | b < 256

  /** `%XY` for one octet. */
  function PercentOctet(b: Octet): (r: string)
    ensures |r| == 3 && r[0] == '%' && IsUpperHexDigit(r[1]) && IsUpperHexDigit(r[2])
  {
    ['%', HexDigit(b / 16), HexDigit(b % 16)]
  }

  /** The UTF-8 octets of a Unicode scalar value (section 3 of RFC 3629). */
  function Utf8(c: char): (r: seq<Octet>)
    ensures 1 <= |r| <= 4
  {
    var n := c as int;
    if n < 0x80 then [n]
    else if n < 0x800 then [0xC0 + n / 64, 0x80 + n % 64]
    else if n < 0x10000 then [0xE0 + n / 4096, 0x80 + (n / 64) % 64, 0x80 + n % 64]
    else [0xF0 + n / 262144, 0x80 + (n / 4096) % 64, 0x80 + (n / 64) % 64, 0x80 + n % 64]
  }

  function PercentOctets(bytes: seq<Octet>): (r: string)
    ensures |r| == 3 * |bytes|
  {
    if bytes == [] then [] else PercentOctet(bytes[0]) + PercentOctets(bytes[1..])
  }

  /** How one character is encoded. */
  function EncodeChar(c: char): (r: string)
    ensures IsComponentUnreserved(c) ==> r == [c]
    ensures !IsComponentUnreserved(c) ==> 3 <= |r| <= 12 && r[0] == '%'
  {
    if IsComponentUnreserved(c) then [c] else PercentOctets(Utf8(c))
  }

  /** `encodeURIComponent(s)` */
  function EncodeUriComponent(s: string): (r: string)
    ensures |s| <= |r|
  {
    if s == [] then [] else EncodeChar(s[0]) + EncodeUriComponent(s[1..])
  }

  /** The characters an encoded component can contain. */
  predicate IsEncodedChar(c: char) {
    IsComponentUnreserved(c) || c == '%' || IsUpperHexDigit(c)
  }

  /** Every character of `t` can appear in an encoded component. */
  predicate AllEncodedChars(t: string) {
    forall c :: c in t ==> IsEncodedChar(c)
  }

  lemma AllEncodedCharsConcat(a: string, b: string)
    requires AllEncodedChars(a) && AllEncodedChars(b)
    ensures AllEncodedChars(a + b)
  {
  }

  lemma {:induction false} PercentOctetsChars(bytes: seq<Octet>)
    ensures AllEncodedChars(PercentOctets(bytes))
    decreases |bytes|
  {
    if bytes != [] {
      PercentOctetsChars(bytes[1..]);
      AllEncodedCharsConcat(PercentOctet(bytes[0]), PercentOctets(bytes[1..]));
    }
  }

  lemma EncodeCharChars(c: char)
    ensures AllEncodedChars(EncodeChar(c))
  {
    if !IsComponentUnreserved(c) {
      PercentOctetsChars(Utf8(c));
    }
  }

  /**
   * An encoded component holds only unreserved characters, `%` and hexadecimal digits, so
   * none of the delimiters `&`, `=`, `?`, `#`, `/` or a space can appear in it.
   */
  lemma EncodedChars(s: string)
    ensures forall c :: c in EncodeUriComponent(s) ==> IsEncodedChar(c)
    ensures forall c :: c in EncodeUriComponent(s) ==> c !in "&=?#/ "
  {
    EncodedCharsAll(s);
    forall c | c in EncodeUriComponent(s)
      ensures c !in "&=?#/ "
    {
      NotADelimiter(c);
    }
  }

  lemma NotADelimiter(c: char)
    requires IsEncodedChar(c)
    ensures c !in "&=?#/ "
  {
  }

  lemma {:induction false} EncodedCharsAll(s: string)
    ensures AllEncodedChars(EncodeUriComponent(s))
    decreases |s|
  {
    if s != [] {
      EncodedCharsAll(s[1..]);
      EncodeCharChars(s[0]);
      AllEncodedCharsConcat(EncodeChar(s[0]), EncodeUriComponent(s[1..]));
    }
  }

  /** Reads one `%XY` octet at the start of `s`. */
  function ReadOctet(s: string): (r: Option<Octet>)
  {
    if |s| < 3 || s[0] != '%' then None
    else match (HexValue(s[1]), HexValue(s[2]))
      case (Some(h), Some(l)) => Some(h * 16 + l)
      case _ => None
  }

  predicate IsContinuation(b: nat) {
    0x80 <= b < 0xC0
  }

  /** The number of octets a UTF-8 sequence starting with lead octet `b` has, or 0 if `b` cannot lead. */
  function SequenceLength(b: nat): nat {
    if b < 0x80 then 1
    else if 0xC0 <= b < 0xE0 then 2
    else if 0xE0 <= b < 0xF0 then 3
    else if 0xF0 <= b < 0xF8 then 4
    else 0
  }

  /** The code point of a UTF-8 sequence, or None if it is not a scalar value. */
  function CodePoint(bytes: seq<Octet>): (r: Option<char>)
  {
    if |bytes| == 0 || SequenceLength(bytes[0]) != |bytes| then None
    else if !(forall i :: 1 <= i < |bytes| ==> IsContinuation(bytes[i])) then None
    else
      var n: int :=
        if |bytes| == 1 then bytes[0]
        else if |bytes| == 2 then (bytes[0] as int - 0xC0) * 64 + (bytes[1] as int - 0x80)
        else if |bytes| == 3 then (bytes[0] as int - 0xE0) * 4096 + (bytes[1] as int - 0x80) * 64 + (bytes[2] as int - 0x80)
        else (bytes[0] as int - 0xF0) * 262144 + (bytes[1] as int - 0x80) * 4096 + (bytes[2] as int - 0x80) * 64 + (bytes[3] as int - 0x80);
      if 0 <= n < 0xD800 || 0xE000 <= n < 0x11_0000 then Some(n as char) else None
  }

  /** Reads `count` consecutive `%XY` octets at the start of `s`. */
  function ReadOctets(s: string, count: nat): (r: Option<seq<Octet>>)
    ensures r.Some? ==> |r.value| == count && 3 * count <= |s|
    decreases count
  {
    if count == 0 then Some([])
    else match ReadOctet(s)
      case None => None
      case Some(b) =>
        match ReadOctets(s[3..], count - 1)
        case None => None
        case Some(rest) => Some([b] + rest)
  }

  /**
   * `decodeURIComponent(s)` (section 19.2.6.3 of ECMA-262): the inverse of the encoder,
   * None for a malformed escape or an invalid UTF-8 sequence.
   */
  function DecodeUriComponent(s: string): (r: Option<string>)
    decreases |s|
  {
    if s == [] then Some([])
    else if s[0] != '%' then
      match DecodeUriComponent(s[1..])
      case None => None
      case Some(rest) => Some([s[0]] + rest)
    else match ReadOctet(s)
      case None => None
      case Some(lead) =>
        var len := SequenceLength(lead);
        if len == 0 then None
        else match ReadOctets(s, len)
          case None => None
          case Some(bytes) =>
            match CodePoint(bytes)
            case None => None
            case Some(c) =>
              match DecodeUriComponent(s[3 * len..])
              case None => None
              case Some(rest) => Some([c] + rest)
  }

  lemma ReadPercentOctet(b: Octet, rest: string)
    ensures ReadOctet(PercentOctet(b) + rest) == Some(b)
  {
    var s := PercentOctet(b) + rest;
    HexValueOfDigit(b / 16);
    HexValueOfDigit(b % 16);
    assert s[0] == '%' && s[1] == HexDigit(b / 16) && s[2] == HexDigit(b % 16);
  }

  lemma {:induction false} ReadPercentOctets(bytes: seq<Octet>, rest: string)
    ensures ReadOctets(PercentOctets(bytes) + rest, |bytes|) == Some(bytes)
    decreases |bytes|
  {
    if bytes != [] {
      var head, tail := PercentOctet(bytes[0]), PercentOctets(bytes[1..]) + rest;
      PercentOctetsCons(bytes, rest);
      ReadPercentOctet(bytes[0], tail);
      ReadPercentOctets(bytes[1..], rest);
      DropPrefix(head, tail);
      ReadOctetsStep(head + tail, |bytes|, bytes[0], bytes[1..]);
      assert [bytes[0]] + bytes[1..] == bytes;
    }
  }

  lemma PercentOctetsCons(bytes: seq<Octet>, rest: string)
    requires bytes != []
    ensures PercentOctets(bytes) + rest == PercentOctet(bytes[0]) + (PercentOctets(bytes[1..]) + rest)
    ensures (PercentOctets(bytes) + rest)[3..] == PercentOctets(bytes[1..]) + rest
  {
    var a, b := PercentOctet(bytes[0]), PercentOctets(bytes[1..]);
    assert PercentOctets(bytes) == a + b;
    ConcatAssoc(a, b, rest);
    DropPrefix(a, b + rest);
  }

  lemma ReadOctetsStep(s: string, count: nat, b: Octet, rest: seq<Octet>)
    requires count > 0 && ReadOctet(s) == Some(b) && ReadOctets(s[3..], count - 1) == Some(rest)
    ensures ReadOctets(s, count) == Some([b] + rest)
  {
  }

  lemma Utf8TwoOctets(n: int)
    requires 0x80 <= n < 0x800
    ensures var b := [0xC0 + n / 64, 0x80 + n % 64];
            SequenceLength(b[0]) == 2 && IsContinuation(b[1]) &&
            (b[0] - 0xC0) * 64 + (b[1] - 0x80) == n
  {
  }

  lemma Utf8ThreeOctets(n: int)
    requires 0x800 <= n < 0x10000
    ensures var b := [0xE0 + n / 4096, 0x80 + (n / 64) % 64, 0x80 + n % 64];
            SequenceLength(b[0]) == 3 && IsContinuation(b[1]) && IsContinuation(b[2]) &&
            (b[0] - 0xE0) * 4096 + (b[1] - 0x80) * 64 + (b[2] - 0x80) == n
  {
    var q := n / 64;
    assert n == q * 64 + n % 64;
    assert q == (q / 64) * 64 + q % 64;
    assert q / 64 == n / 4096;
  }

  lemma Utf8FourOctets(n: int)
    requires 0x10000 <= n < 0x11_0000
    ensures var b := [0xF0 + n / 262144, 0x80 + (n / 4096) % 64, 0x80 + (n / 64) % 64, 0x80 + n % 64];
            SequenceLength(b[0]) == 4 && IsContinuation(b[1]) && IsContinuation(b[2]) && IsContinuation(b[3]) &&
            (b[0] - 0xF0) * 262144 + (b[1] - 0x80) * 4096 + (b[2] - 0x80) * 64 + (b[3] - 0x80) == n
  {
    var q := n / 64;
    var p := q / 64;
    assert n == q * 64 + n % 64;
    assert q == p * 64 + q % 64;
    assert p == (p / 64) * 64 + p % 64;
    assert p == n / 4096;
    assert p / 64 == n / 262144;
  }

  /** The UTF-8 octets of a character decode back to it. */
  lemma Utf8CodePoint(c: char)
    ensures SequenceLength(Utf8(c)[0]) == |Utf8(c)|
    ensures CodePoint(Utf8(c)) == Some(c)
  {
    var n := c as int;
    if n < 0x80 {
    } else if n < 0x800 {
      Utf8TwoOctets(n);
    } else if n < 0x10000 {
      Utf8ThreeOctets(n);
    } else {
      Utf8FourOctets(n);
    }
  }

  /** One step of the decoder over an escape sequence that decodes to `c`. */
  lemma DecodeEscapeStep(s: string, lead: Octet, bytes: seq<Octet>, c: char)
    requires s != [] && s[0] == '%' && ReadOctet(s) == Some(lead)
    requires SequenceLength(lead) != 0 && ReadOctets(s, SequenceLength(lead)) == Some(bytes)
    requires CodePoint(bytes) == Some(c)
    ensures DecodeUriComponent(s) ==
              match DecodeUriComponent(s[3 * |bytes|..])
              case None => None
              case Some(rest) => Some([c] + rest)
  {
  }

  lemma DecodeEncodedOctets(c: char, tail: string)
    requires !IsComponentUnreserved(c)
    ensures DecodeUriComponent(PercentOctets(Utf8(c)) + tail) ==
              match DecodeUriComponent(tail)
              case None => None
              case Some(rest) => Some([c] + rest)
  {
    Utf8CodePoint(c);
    DecodePercentOctets(Utf8(c), c, tail);
  }

  /** The escapes of a valid UTF-8 sequence decode to its code point. */
  lemma DecodePercentOctets(bytes: seq<Octet>, c: char, tail: string)
    requires bytes != []
    requires SequenceLength(bytes[0]) == |bytes| && CodePoint(bytes) == Some(c)
    ensures DecodeUriComponent(PercentOctets(bytes) + tail) ==
              match DecodeUriComponent(tail)
              case None => None
              case Some(rest) => Some([c] + rest)
  {
    var e := PercentOctets(bytes) + tail;
    ReadPercentOctets(bytes, tail);
    PercentOctetsCons(bytes, tail);
    ReadPercentOctet(bytes[0], PercentOctets(bytes[1..]) + tail);
    assert e[3 * |bytes|..] == tail;
    DecodeEscapeStep(e, bytes[0], bytes, c);
  }

  /** Decoding the encoding of one character gives that character back and moves on. */
  lemma DecodeEncodedChar(c: char, tail: string)
    ensures DecodeUriComponent(EncodeChar(c) + tail) ==
              match DecodeUriComponent(tail)
              case None => None
              case Some(rest) => Some([c] + rest)
  {
    if IsComponentUnreserved(c) {
      var e := EncodeChar(c) + tail;
      assert e[0] == c && e[1..] == tail;
    } else {
      DecodeEncodedOctets(c, tail);
    }
  }

  /** Decoding undoes encoding: distinct inputs have distinct encodings. */
  lemma {:induction false} DecodeEncode(s: string)
    ensures DecodeUriComponent(EncodeUriComponent(s)) == Some(s)
    decreases |s|
  {
    if s != [] {
      DecodeEncode(s[1..]);
      DecodeEncodedChar(s[0], EncodeUriComponent(s[1..]));
      assert [s[0]] + s[1..] == s;
    }
  }
}
