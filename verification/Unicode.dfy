/**
 UTF-8 (section 3 of RFC 3629) and UTF-16 (section 2.1 of RFC 2781), as Go's unicode/utf8 and
 unicode/utf16 implement them. A character is a Unicode scalar value.
 */
module Unicode {
  import opened Wrappers

  const REPLACEMENT: char := '\U{FFFD}'

  function EncodeChar(c: char): (bytes: Bytes)
    ensures 1 <= |bytes| <= 4
  {
    var n := c as int;
    if n < 0x80 then [n]
    else if n < 0x800 then [0xC0 + n / 0x40, 0x80 + n % 0x40]
    else if n < 0x10000 then [0xE0 + n / 0x1000, 0x80 + n / 0x40 % 0x40, 0x80 + n % 0x40]
    else [0xF0 + n / 0x40000, 0x80 + n / 0x1000 % 0x40, 0x80 + n / 0x40 % 0x40, 0x80 + n % 0x40]
  }

  /** The bytes of a text. */
  function Encode(text: string): Bytes {
    if text == "" then [] else EncodeChar(text[0]) + Encode(text[1..])
  }

  predicate Continues(b: byte) {
    0x80 <= b <= 0xBF
  }

  /** The range Go's decoder accepts for the second byte. */
  predicate Second(first: byte, b: byte) {
    && Continues(b)
    && (first == 0xE0 ==> 0xA0 <= b)
    && (first == 0xED ==> b <= 0x9F)
    && (first == 0xF0 ==> 0x90 <= b)
    && (first == 0xF4 ==> b <= 0x8F)
  }

  /** The low six bits of a continuation byte. */
  function Low(b: byte): (n: int)
    requires Continues(b)
    ensures 0 <= n < 0x40
  {
    b - 0x80
  }

  predicate TwoBytes(bytes: Bytes) {
    |bytes| >= 2 && 0xC2 <= bytes[0] <= 0xDF && Second(bytes[0], bytes[1])
  }

  predicate ThreeBytes(bytes: Bytes) {
    |bytes| >= 3 && 0xE0 <= bytes[0] <= 0xEF && Second(bytes[0], bytes[1]) && Continues(bytes[2])
  }

  predicate FourBytes(bytes: Bytes) {
    |bytes| >= 4 && 0xF0 <= bytes[0] <= 0xF4 && Second(bytes[0], bytes[1]) && Continues(bytes[2]) && Continues(bytes[3])
  }

  /** The first character of some bytes; `None` where Go's decoder reports an invalid encoding. */
  function DecodeFirst(bytes: Bytes): Option<char>
    requires bytes != []
  {
    var first: int := bytes[0];
    if first < 0x80 then
      Some(first as char)
    else if TwoBytes(bytes) then
      Some(((first - 0xC0) * 0x40 + Low(bytes[1])) as char)
    else if ThreeBytes(bytes) then
      Some(((first - 0xE0) * 0x1000 + Low(bytes[1]) * 0x40 + Low(bytes[2])) as char)
    else if FourBytes(bytes) then
      Some(((first - 0xF0) * 0x40000 + Low(bytes[1]) * 0x1000 + Low(bytes[2]) * 0x40 + Low(bytes[3])) as char)
    else
      None
  }

  /** Three base-64 digits above the last. */
  lemma Digits(n: nat, a: nat, b: nat, c: nat, d: nat)
    requires b < 0x40 && c < 0x40 && d < 0x40
    ensures n == a * 0x40000 + b * 0x1000 + c * 0x40 + d
            <==> a == n / 0x40000 && b == n / 0x1000 % 0x40 && c == n / 0x40 % 0x40 && d == n % 0x40
  {
    var low, middle := n / 0x40, n / 0x1000;
    assert n == low * 0x40 + n % 0x40;
    assert middle == low / 0x40 && low == middle * 0x40 + low % 0x40;
    assert n / 0x40000 == middle / 0x40 && middle == middle / 0x40 * 0x40 + middle % 0x40;
    if n == a * 0x40000 + b * 0x1000 + c * 0x40 + d {
      assert low == a * 0x1000 + b * 0x40 + c;
      assert middle == a * 0x40 + b;
    }
  }

  lemma DecodeOfFourBytes(c: char, rest: Bytes)
    requires c as int >= 0x10000
    ensures DecodeFirst(EncodeChar(c) + rest) == Some(c)
  {
    var n := c as int;
    Digits(n, n / 0x40000, n / 0x1000 % 0x40, n / 0x40 % 0x40, n % 0x40);
    assert FourBytes(EncodeChar(c) + rest);
  }

  lemma DecodeOfEncodeChar(c: char, rest: Bytes)
    ensures DecodeFirst(EncodeChar(c) + rest) == Some(c)
  {
    var n := c as int;
    var bytes := EncodeChar(c) + rest;
    if n >= 0x10000 {
      DecodeOfFourBytes(c, rest);
    } else if n >= 0x80 {
      Digits(n, 0, n / 0x1000, n / 0x40 % 0x40, n % 0x40);
      assert if n < 0x800 then TwoBytes(bytes) else ThreeBytes(bytes);
    }
  }

  lemma EncodeOfDecodeFirst(bytes: Bytes)
    requires bytes != [] && DecodeFirst(bytes).Some?
    ensures EncodeChar(DecodeFirst(bytes).value) <= bytes
  {
    var first: int := bytes[0];
    var n := DecodeFirst(bytes).value as int;
    if TwoBytes(bytes) {
      Digits(n, 0, 0, first - 0xC0, Low(bytes[1]));
    } else if ThreeBytes(bytes) {
      Digits(n, 0, first - 0xE0, Low(bytes[1]), Low(bytes[2]));
    } else if FourBytes(bytes) {
      Digits(n, first - 0xF0, Low(bytes[1]), Low(bytes[2]), Low(bytes[3]));
    }
  }

  /** `[]rune(value)`: every invalid byte becomes one replacement character. */
  function Runes(bytes: Bytes): string
    decreases |bytes|
  {
    if bytes == [] then
      ""
    else
      match DecodeFirst(bytes)
      case Some(c) =>
        EncodeOfDecodeFirst(bytes);
        [c] + Runes(bytes[|EncodeChar(c)|..])
      case None => [REPLACEMENT] + Runes(bytes[1..])
  }

  /** `utf8.ValidString`. */
  predicate Valid(bytes: Bytes)
    decreases |bytes|
  {
    bytes == [] ||
    match DecodeFirst(bytes)
    case Some(c) =>
      EncodeOfDecodeFirst(bytes);
      Valid(bytes[|EncodeChar(c)|..])
    case None => false
  }

  lemma RunesOfFirst(c: char, rest: Bytes)
    ensures Runes(EncodeChar(c) + rest) == [c] + Runes(rest)
    ensures Valid(EncodeChar(c) + rest) <==> Valid(rest)
  {
    hide DecodeFirst, EncodeChar;
    var bytes := EncodeChar(c) + rest;
    DecodeOfEncodeChar(c, rest);
    assert bytes[|EncodeChar(c)|..] == rest;
  }

  /** Encoded text is valid and decodes to itself, also in front of other bytes. */
  lemma {:induction false} RunesOfEncode(text: string, rest: Bytes)
    ensures Runes(Encode(text) + rest) == text + Runes(rest)
    ensures Valid(Encode(text) + rest) <==> Valid(rest)
  {
    hide Runes, Valid, EncodeChar;
    if text == "" {
      assert Encode(text) + rest == rest;
    } else {
      var tail := Encode(text[1..]) + rest;
      assert Encode(text) + rest == EncodeChar(text[0]) + tail;
      RunesOfFirst(text[0], tail);
      RunesOfEncode(text[1..], rest);
      assert [text[0]] + (text[1..] + Runes(rest)) == text + Runes(rest);
    }
  }

  /** Valid bytes are the encoding of the characters they decode to. */
  lemma {:induction false} EncodeOfRunes(bytes: Bytes)
    requires Valid(bytes)
    ensures Encode(Runes(bytes)) == bytes
    decreases |bytes|
  {
    hide DecodeFirst, EncodeChar;
    if bytes != [] {
      var c := DecodeFirst(bytes).value;
      EncodeOfDecodeFirst(bytes);
      var n := |EncodeChar(c)|;
      EncodeOfRunes(bytes[n..]);
      assert Runes(bytes)[1..] == Runes(bytes[n..]);
      assert bytes == bytes[..n] + bytes[n..];
    }
  }

  /** Validity is being the encoding of some text. */
  lemma ValidIsEncoded(bytes: Bytes)
    ensures Valid(bytes) <==> exists text :: Encode(text) == bytes
  {
    if Valid(bytes) {
      EncodeOfRunes(bytes);
      assert Encode(Runes(bytes)) == bytes;
    }
    if text :| Encode(text) == bytes {
      RunesOfEncode(text, []);
      assert bytes + [] == bytes;
    }
  }

  /** Decoding and validity are compositional behind valid bytes. */
  lemma RunesAppend(a: Bytes, b: Bytes)
    requires Valid(a)
    ensures Runes(a + b) == Runes(a) + Runes(b)
    ensures Valid(a + b) <==> Valid(b)
  {
    EncodeOfRunes(a);
    RunesOfEncode(Runes(a), b);
  }

  type Unit = n: nat | n < 0x10000

  function Utf16Char(c: char): (units: seq<Unit>)
    ensures 1 <= |units| <= 2
  {
    var n := c as int;
    if n < 0x10000 then [n] else [0xD800 + (n - 0x10000) / 0x400, 0xDC00 + (n - 0x10000) % 0x400]
  }

  /** `utf16.Encode`. */
  function Utf16(text: string): seq<Unit> {
    if text == "" then [] else Utf16Char(text[0]) + Utf16(text[1..])
  }

  lemma {:induction false} Utf16Append(a: string, b: string)
    ensures Utf16(a + b) == Utf16(a) + Utf16(b)
  {
    if a == "" {
      assert a + b == b;
    } else {
      assert (a + b)[1..] == a[1..] + b;
      Utf16Append(a[1..], b);
    }
  }

  /** How many characters lie beyond the basic plane. */
  function Supplementary(text: string): nat {
    if text == "" then 0 else (if text[0] as int >= 0x1_0000 then 1 else 0) + Supplementary(text[1..])
  }

  /** One unit a character, and one more for each beyond the basic plane. */
  lemma {:induction false} Utf16Length(text: string)
    ensures |Utf16(text)| == |text| + Supplementary(text)
  {
    if text != "" {
      Utf16Length(text[1..]);
    }
  }

  /** The units of a character: itself, or a high and a low surrogate that stand for what exceeds U+10000. */
  lemma Utf16CharSpelled(c: char)
    ensures var n, units := c as int, Utf16Char(c);
            if n < 0x1_0000 then units == [n] && !(0xD800 <= n <= 0xDFFF)
            else |units| == 2 && 0xD800 <= units[0] <= 0xDBFF && 0xDC00 <= units[1] <= 0xDFFF
                 && 0x1_0000 + (units[0] - 0xD800) as int * 0x400 + (units[1] - 0xDC00) as int == n
  {
  }

  lemma Utf16CharInjective(a: char, b: char, restA: seq<Unit>, restB: seq<Unit>)
    requires Utf16Char(a) + restA == Utf16Char(b) + restB
    ensures a == b && restA == restB
  {
    Utf16CharSpelled(a);
    Utf16CharSpelled(b);
    hide Utf16Char;
    var whole := Utf16Char(a) + restA;
    assert whole[0] == Utf16Char(a)[0] && whole[0] == Utf16Char(b)[0];
    if |Utf16Char(a)| == 2 {
      assert whole[1] == Utf16Char(a)[1] && whole[1] == Utf16Char(b)[1];
    }
    assert restA == whole[|Utf16Char(a)|..] && restB == whole[|Utf16Char(b)|..];
  }

  /** Different texts have different units. */
  lemma {:induction false} Utf16Injective(a: string, b: string)
    requires Utf16(a) == Utf16(b)
    ensures a == b
  {
    hide Utf16Char;
    if a != "" && b != "" {
      Utf16CharInjective(a[0], b[0], Utf16(a[1..]), Utf16(b[1..]));
      Utf16Injective(a[1..], b[1..]);
    }
  }

  /** The bytes of a character as section 3 of RFC 3629 lays them out: as few as will do, high bits first. */
  lemma EncodedCharSpelled(c: char)
    ensures var n, b := c as int, EncodeChar(c);
            if n < 0x80 then b == [n]
            else if n < 0x800 then
              |b| == 2 && 0xC2 <= b[0] <= 0xDF && Continues(b[1]) && n == (b[0] as int - 0xC0) * 0x40 + Low(b[1])
            else if n < 0x1_0000 then
              && |b| == 3 && 0xE0 <= b[0] <= 0xEF && Continues(b[1]) && Continues(b[2])
              && n == (b[0] as int - 0xE0) * 0x1000 + Low(b[1]) * 0x40 + Low(b[2])
            else
              && |b| == 4 && 0xF0 <= b[0] <= 0xF4 && Continues(b[1]) && Continues(b[2]) && Continues(b[3])
              && n == (b[0] as int - 0xF0) * 0x4_0000 + Low(b[1]) * 0x1000 + Low(b[2]) * 0x40 + Low(b[3])
  {
    var n: nat := c as int;
    Digits(n, n / 0x40000, n / 0x1000 % 0x40, n / 0x40 % 0x40, n % 0x40);
    if n < 0x1_0000 {
      assert n / 0x40000 == 0 && n / 0x1000 % 0x40 == n / 0x1000;
      if n < 0x800 {
        assert n / 0x1000 == 0 && n / 0x40 % 0x40 == n / 0x40;
      }
    }
  }
}
