/** The canonical Base64 codec of section 4 of RFC 4648, with the size limits of the configuration channel. */
module Base64 {
  import opened Bytes

  const MAX_CONTENT: nat := 8 * 1024 * 1024
  const MAX_ENCODED: nat := (MAX_CONTENT + 2) / 3 * 4

  function Base64Value(ch: char): int {
    if 'A' <= ch <= 'Z' then ch as int - 'A' as int
    else if 'a' <= ch <= 'z' then ch as int - 'a' as int + 26
    else if '0' <= ch <= '9' then ch as int - '0' as int + 52
    else if ch == '+' then 62
    else if ch == '/' then 63
    else -1
  }

  function Digit(v: int): (ch: char)
    requires 0 <= v < 64
  {
    if v < 26 then (v + 'A' as int) as char
    else if v < 52 then (v - 26 + 'a' as int) as char
    else if v < 62 then (v - 52 + '0' as int) as char
    else if v == 62 then '+'
    else '/'
  }

  lemma ValueOfDigit(v: int)
    requires 0 <= v < 64
    ensures Base64Value(Digit(v)) == v && Digit(v) != '='
  {
  }

  lemma DigitOfValue(ch: char)
    requires Base64Value(ch) >= 0
    ensures 0 <= Base64Value(ch) < 64 && Digit(Base64Value(ch)) == ch && ch != '='
  {
  }

  /** Four characters for one to three bytes; a missing byte is padding, and its bits are zero. */
  function EncodeGroup(b: seq<byte>): (r: string)
    requires 1 <= |b| <= 3
    ensures |r| == 4
  {
    var first := b[0] as int;
    var second := if |b| > 1 then b[1] as int else 0;
    var third := if |b| > 2 then b[2] as int else 0;
    [Digit(first / 4), Digit(first % 4 * 16 + second / 16),
     if |b| > 1 then Digit(second % 16 * 4 + third / 64) else '=',
     if |b| > 2 then Digit(third % 64) else '=']
  }

  function Encoded(content: seq<byte>): string
    decreases |content|
  {
    if content == [] then []
    else if |content| <= 3 then EncodeGroup(content)
    else EncodeGroup(content[..3]) + Encoded(content[3..])
  }

  /** Vectors of section 10 of RFC 4648. */
  lemma Vectors()
    ensures Encoded([0x66]) == "Zg==" && Encoded([0x66, 0x6F]) == "Zm8=" && Encoded([0x66, 0x6F, 0x6F]) == "Zm9v"
    ensures Encoded([0x66, 0x6F, 0x6F, 0x62, 0x61]) == "Zm9vYmE="
  {
    var foo, ba: seq<byte> := [0x66, 0x6F, 0x6F], [0x62, 0x61];
    assert (foo + ba)[..3] == foo && (foo + ba)[3..] == ba && [0x66, 0x6F, 0x6F, 0x62, 0x61] == foo + ba;
    assert EncodeGroup(foo) == "Zm9v" && EncodeGroup(ba) == "YmE=";
  }

  /** The last two digits of the alphabet. */
  lemma LastDigits()
    ensures Encoded([0xFB, 0xEF, 0xFF]) == "++//"
  {
    assert EncodeGroup([0xFB, 0xEF, 0xFF]) == "++//";
  }

  method EncodeBase64(content: seq<byte>) returns (encoded: string)
    ensures encoded == Encoded(content)
  {
    hide EncodeGroup;
    encoded := [];
    var offset := 0;
    while offset < |content|
      invariant 0 <= offset
      invariant offset <= |content| ==> encoded + Encoded(content[offset..]) == Encoded(content)
      invariant offset > |content| ==> encoded == Encoded(content)
    {
      var haveThird := offset + 2 < |content|;
      var end := if haveThird then offset + 3 else |content|;
      var group := EncodeQuad(content[offset..end]);
      if |content| - offset > 3 {
        assert content[offset..][..3] == content[offset..end] && content[offset..][3..] == content[offset + 3..];
        Assoc(encoded, group, Encoded(content[offset + 3..]));
      } else {
        assert content[offset..] == content[offset..end];
        assert offset + 3 == |content| ==> content[offset + 3..] == [];
        assert Encoded([]) == [];
      }
      encoded := encoded + group;
      offset := offset + 3;
    }
    assert offset <= |content| ==> content[offset..] == [];
  }

  /** The four characters, six of the 24 bits each. */
  method EncodeQuad(b: seq<byte>) returns (r: string)
    requires 1 <= |b| <= 3
    ensures r == EncodeGroup(b)
  {
    hide Digit;
    var first, second, third := b[0] as int, if |b| > 1 then b[1] as int else 0, if |b| > 2 then b[2] as int else 0;
    var bits := first * 65536 + second * 256 + third;
    BitFields(first, second, third);
    r := [Digit(bits / 64 / 64 / 64 % 64), Digit(bits / 64 / 64 % 64), if |b| > 1 then Digit(bits / 64 % 64) else '=',
          if |b| > 2 then Digit(bits % 64) else '='];
  }

  lemma BitFields(first: int, second: int, third: int)
    requires 0 <= first < 256 && 0 <= second < 256 && 0 <= third < 256
    ensures var bits := first * 65536 + second * 256 + third;
            && bits / 64 / 64 / 64 % 64 == first / 4 && bits / 64 / 64 % 64 == first % 4 * 16 + second / 16
            && bits / 64 % 64 == second % 16 * 4 + third / 64 && bits % 64 == third % 64
  {
    var (a, b, c, d) := (first / 4, first % 4 * 16 + second / 16, second % 16 * 4 + third / 64, third % 64);
    Six((a * 64 + b) * 64 + c, d);
    Six(a * 64 + b, c);
    Six(a, b);
    assert first * 65536 + second * 256 + third == ((a * 64 + b) * 64 + c) * 64 + d;
  }

  lemma Six(high: int, low: int)
    requires 0 <= low < 64
    ensures (high * 64 + low) / 64 == high && (high * 64 + low) % 64 == low
  {
  }

  datatype Decoding = Content(content: seq<byte>) | TooLarge | Invalid

  /** One group of four characters; padding only where allowed, with zero bits before it. */
  function DecodeGroup(q: string, last: bool): (r: Option<seq<byte>>)
    requires |q| == 4
    ensures r.Some? ==> 1 <= |r.value| <= 3
  {
    var (first, second) := (Base64Value(q[0]), Base64Value(q[1]));
    var (pad3, pad4) := (q[2] == '=', q[3] == '=');
    var third := if pad3 then 0 else Base64Value(q[2]);
    var fourth := if pad4 then 0 else Base64Value(q[3]);
    if first < 0 || second < 0 || third < 0 || fourth < 0 || (pad3 && !pad4) || ((pad3 || pad4) && !last)
       || (pad3 && second % 16 != 0) || (pad4 && !pad3 && third % 4 != 0) then None
    else
      Ranges(q[0], q[1]);
      Ranges(if pad3 then 'A' else q[2], if pad4 then 'A' else q[3]);
      Some([first * 4 + second / 16] + (if pad3 then [] else [second % 16 * 16 + third / 4])
           + (if pad4 then [] else [third % 4 * 64 + fourth]))
  }

  lemma Ranges(a: char, b: char)
    ensures Base64Value(a) < 64 && Base64Value(b) < 64
  {
  }

  /** The values of the four characters of a group, and which of them are padding. */
  lemma GroupDigits(b: seq<byte>)
    requires 1 <= |b| <= 3
    ensures var (first, second, third) := (b[0] as int, if |b| > 1 then b[1] as int else 0, if |b| > 2 then b[2] as int else 0);
      var q := EncodeGroup(b);
      && Base64Value(q[0]) == first / 4 && Base64Value(q[1]) == first % 4 * 16 + second / 16
      && (q[2] == '=' <==> |b| == 1) && (|b| > 1 ==> Base64Value(q[2]) == second % 16 * 4 + third / 64)
      && (q[3] == '=' <==> |b| <= 2) && (|b| > 2 ==> Base64Value(q[3]) == third % 64)
  {
    hide Digit, Base64Value;
    var first, second, third := b[0] as int, if |b| > 1 then b[1] as int else 0, if |b| > 2 then b[2] as int else 0;
    ValueOfDigit(first / 4);
    ValueOfDigit(first % 4 * 16 + second / 16);
    ValueOfDigit(second % 16 * 4 + third / 64);
    ValueOfDigit(third % 64);
  }

  /** Encoding a group and decoding it again. */
  lemma GroupRoundTrip(b: seq<byte>, last: bool)
    requires 1 <= |b| <= 3 && (|b| == 3 || last)
    ensures DecodeGroup(EncodeGroup(b), last) == Some(b)
  {
    hide EncodeGroup, Digit, Base64Value;
    var first, second, third := b[0] as int, if |b| > 1 then b[1] as int else 0, if |b| > 2 then b[2] as int else 0;
    GroupDigits(b);
    Joined(first, second, third);
    assert b == [first] + (if |b| > 1 then [second] else []) + (if |b| > 2 then [third] else []);
  }

  lemma Joined(first: int, second: int, third: int)
    requires 0 <= first < 256 && 0 <= second < 256 && 0 <= third < 256
    ensures var (b, c) := (first % 4 * 16 + second / 16, second % 16 * 4 + third / 64);
            && first / 4 * 4 + b / 16 == first && b % 16 * 16 + c / 4 == second && c % 4 * 64 + third % 64 == third
            && (second == 0 ==> b % 16 == 0) && (third == 0 ==> c % 4 == 0)
  {
  }

  /** Decoding a group and encoding the bytes again. */
  lemma GroupCanonical(q: string, last: bool)
    requires |q| == 4 && DecodeGroup(q, last).Some?
    ensures EncodeGroup(DecodeGroup(q, last).value) == q
    ensures |DecodeGroup(q, last).value| < 3 ==> last
  {
    hide Digit, Base64Value;
    DigitOfValue(q[0]);
    DigitOfValue(q[1]);
    var third, fourth := 0, 0;
    if q[2] != '=' {
      DigitOfValue(q[2]);
      third := Base64Value(q[2]);
    }
    if q[3] != '=' {
      DigitOfValue(q[3]);
      fourth := Base64Value(q[3]);
    }
    Parted(Base64Value(q[0]), Base64Value(q[1]), third, fourth);
    assert q == [q[0], q[1], q[2], q[3]];
  }

  lemma Parted(first: int, second: int, third: int, fourth: int)
    requires 0 <= first < 64 && 0 <= second < 64 && 0 <= third < 64 && 0 <= fourth < 64
    ensures var (x, y, z) := (first * 4 + second / 16, second % 16 * 16 + third / 4, third % 4 * 64 + fourth);
            && x / 4 == first && x % 4 * 16 + y / 16 == second && y % 16 * 4 + z / 64 == third && z % 64 == fourth
    ensures var x := first * 4 + second / 16; x % 4 * 16 == second - second % 16
    ensures var y := second % 16 * 16 + third / 4; y % 16 * 4 == third - third % 4
  {
  }

  function Decoded(text: string): Option<seq<byte>>
    decreases |text|
  {
    if text == [] then Some([])
    else if |text| < 4 then None
    else
      match (DecodeGroup(text[..4], |text| == 4), Decoded(text[4..]))
      case (Some(group), Some(rest)) => Some(group + rest)
      case _ => None
  }

  lemma {:induction false} DecodeOfEncode(content: seq<byte>)
    ensures Decoded(Encoded(content)) == Some(content)
    decreases |content|
  {
    hide EncodeGroup, DecodeGroup;
    var text := Encoded(content);
    if content == [] {
    } else if |content| <= 3 {
      GroupRoundTrip(content, true);
      assert text[..4] == text && text[4..] == [];
      assert content + [] == content;
    } else {
      var group, rest := content[..3], content[3..];
      EncodedNotEmpty(rest);
      GroupRoundTrip(group, false);
      DecodeOfEncode(rest);
      assert text[..4] == EncodeGroup(group) && text[4..] == Encoded(rest);
      assert group + rest == content;
    }
  }

  lemma EncodedNotEmpty(content: seq<byte>)
    ensures content != [] ==> |Encoded(content)| >= 4
  {
    hide EncodeGroup;
  }

  lemma {:induction false} EncodeOfDecode(text: string)
    requires Decoded(text).Some?
    ensures Encoded(Decoded(text).value) == text
    decreases |text|
  {
    hide EncodeGroup, DecodeGroup;
    if text != [] {
      var group, rest := DecodeGroup(text[..4], |text| == 4).value, Decoded(text[4..]).value;
      GroupCanonical(text[..4], |text| == 4);
      EncodeOfDecode(text[4..]);
      assert text == text[..4] + text[4..];
      if |text| == 4 {
        assert group + rest == group;
      } else {
        assert rest != [];
        assert (group + rest)[..3] == group && (group + rest)[3..] == rest;
      }
    }
  }

  lemma {:induction false} EncodedLength(content: seq<byte>)
    ensures |Encoded(content)| == (|content| + 2) / 3 * 4
    decreases |content|
  {
    hide EncodeGroup;
    if |content| > 3 {
      EncodedLength(content[3..]);
    }
  }

  /** Accepts exactly the encodings of contents within the limit, and gives the content back. */
  method DecodeBase64(encoded: string) returns (r: Decoding)
    ensures forall content :: Encoded(content) == encoded ==> r == if |content| <= MAX_CONTENT then Content(content) else TooLarge
    ensures r.Content? ==> |r.content| <= MAX_CONTENT && Encoded(r.content) == encoded
    ensures r.TooLarge? <==> |encoded| > MAX_ENCODED || exists content :: Encoded(content) == encoded && |content| > MAX_CONTENT
  {
    hide Encoded, Decoded;
    forall content | Encoded(content) == encoded
      ensures Decoded(encoded) == Some(content) && |encoded| == (|content| + 2) / 3 * 4
    {
      DecodeOfEncode(content);
      EncodedLength(content);
    }
    if |encoded| > MAX_ENCODED {
      return TooLarge;
    }
    if |encoded| % 4 != 0 {
      return Invalid;
    }
    var decoded := DecodeGroups(encoded);
    if decoded.None? {
      return Invalid;
    }
    EncodeOfDecode(encoded);
    r := if |decoded.value| > MAX_CONTENT then TooLarge else Content(decoded.value);
  }

  method DecodeGroups(encoded: string) returns (r: Option<seq<byte>>)
    requires |encoded| % 4 == 0
    ensures r == Decoded(encoded)
  {
    hide DecodeGroup;
    var decoded: seq<byte> := [];
    var offset := 0;
    assert encoded[offset..] == encoded;
    NothingAppended(Decoded(encoded));
    while offset < |encoded|
      invariant 0 <= offset <= |encoded| && offset % 4 == 0
      invariant Decoded(encoded) == Appended(decoded, Decoded(encoded[offset..]))
    {
      var rest := encoded[offset..];
      assert rest[..4] == encoded[offset..offset + 4] && rest[4..] == encoded[offset + 4..];
      var group := DecodeGroup(encoded[offset..offset + 4], offset + 4 == |encoded|);
      if group.None? {
        return None;
      }
      AppendedTwice(decoded, group.value, Decoded(rest[4..]));
      decoded := decoded + group.value;
      offset := offset + 4;
    }
    assert encoded[offset..] == [];
    assert decoded + [] == decoded;
    r := Some(decoded);
  }

  function Appended(front: seq<byte>, rest: Option<seq<byte>>): Option<seq<byte>> {
    if rest.Some? then Some(front + rest.value) else None
  }

  lemma AppendedTwice(a: seq<byte>, b: seq<byte>, rest: Option<seq<byte>>)
    ensures Appended(a, Appended(b, rest)) == Appended(a + b, rest)
  {
    if rest.Some? {
      Assoc(a, b, rest.value);
    }
  }

  lemma NothingAppended(rest: Option<seq<byte>>)
    ensures Appended([], rest) == rest
  {
    if rest.Some? {
      assert [] + rest.value == rest.value;
    }
  }
}
