/**
 Go's `base64.StdEncoding` (section 4 of RFC 4648): padded, skipping carriage returns and line feeds
 wherever they stand, and refusing non-zero trailing bits when strict (section 3.5).
 */
module Base64 {
  import opened Wrappers

  type Sextet = n: nat | n < 64

  function Symbol(n: Sextet): char {
    if n < 26 then (n + 'A' as int) as char
    else if n < 52 then (n - 26 + 'a' as int) as char
    else if n < 62 then (n - 52 + '0' as int) as char
    else if n == 62 then '+'
    else '/'
  }

  function SextetOf(c: char): Option<Sextet> {
    if 'A' <= c <= 'Z' then Some(c as int - 'A' as int)
    else if 'a' <= c <= 'z' then Some(c as int - 'a' as int + 26)
    else if '0' <= c <= '9' then Some(c as int - '0' as int + 52)
    else if c == '+' then Some(62)
    else if c == '/' then Some(63)
    else None
  }

  lemma SymbolRoundTrip(n: Sextet)
    ensures SextetOf(Symbol(n)) == Some(n)
    ensures !IsBreak(Symbol(n)) && Symbol(n) != '='
  {
  }

  lemma SextetRoundTrip(c: char)
    ensures SextetOf(c).Some? ==> Symbol(SextetOf(c).value) == c
  {
  }

  /** The four sextets of up to three bytes, a missing byte counting as zero. */
  function Sextets(a: byte, b: byte, c: byte): (Sextet, Sextet, Sextet, Sextet) {
    (a / 4, a % 4 * 16 + b / 16, b % 16 * 4 + c / 64, c % 64)
  }

  function Octets(s: Sextet, t: Sextet, u: Sextet, v: Sextet): (byte, byte, byte) {
    (s * 4 + t / 16, t % 16 * 16 + u / 4, u % 4 * 64 + v)
  }

  lemma Recombine(high: nat, low: nat, n: nat)
    requires n == 4 || n == 16 || n == 64
    requires low < n
    ensures (high * n + low) / n == high && (high * n + low) % n == low
  {
    if n == 4 {
      assert (high * 4 + low) / 4 == high;
    } else if n == 16 {
      assert (high * 16 + low) / 16 == high;
    } else {
      assert (high * 64 + low) / 64 == high;
    }
  }

  lemma OctetsOfSextets(a: byte, b: byte, c: byte)
    ensures var q := Sextets(a, b, c); Octets(q.0, q.1, q.2, q.3) == (a, b, c)
  {
    Recombine(a % 4, b / 16, 16);
    Recombine(b % 16, c / 64, 4);
  }

  lemma SextetsOfOctets(s: Sextet, t: Sextet, u: Sextet, v: Sextet)
    ensures var q := Octets(s, t, u, v); Sextets(q.0, q.1, q.2) == (s, t, u, v)
  {
    Recombine(s, t / 16, 4);
    Recombine(t % 16, u / 4, 16);
    Recombine(u % 4, v, 64);
  }

  /** The last group, of one or two bytes, with its padding. */
  function EncodeTail(bytes: Bytes): string
    requires 1 <= |bytes| <= 2
  {
    var q := Sextets(bytes[0], if |bytes| == 2 then bytes[1] else 0, 0);
    [Symbol(q.0), Symbol(q.1), if |bytes| == 2 then Symbol(q.2) else '=', '=']
  }

  function EncodeGroup(a: byte, b: byte, c: byte): string {
    var q := Sextets(a, b, c);
    [Symbol(q.0), Symbol(q.1), Symbol(q.2), Symbol(q.3)]
  }

  /** `EncodeToString`. */
  function Encode(bytes: Bytes): (text: string)
    ensures |text| == (|bytes| + 2) / 3 * 4
  {
    if bytes == [] then ""
    else if |bytes| < 3 then EncodeTail(bytes)
    else EncodeGroup(bytes[0], bytes[1], bytes[2]) + Encode(bytes[3..])
  }

  predicate IsBreak(c: char) {
    c == '\r' || c == '\n'
  }

  /** The text without carriage returns and line feeds. */
  function Strip(text: string): (stripped: string)
    ensures forall i | 0 <= i < |stripped| :: !IsBreak(stripped[i])
  {
    if text == "" then "" else (if IsBreak(text[0]) then "" else [text[0]]) + Strip(text[1..])
  }

  /** The last group, which may be padded. */
  function DecodeTail(strict: bool, text: string): Option<Bytes>
    requires |text| == 4
  {
    match (SextetOf(text[0]), SextetOf(text[1]), SextetOf(text[2]), SextetOf(text[3]))
    case (Some(s), Some(t), Some(u), Some(v)) =>
      var q := Octets(s, t, u, v);
      Some([q.0, q.1, q.2])
    case (Some(s), Some(t), Some(u), None) =>
      var q := Octets(s, t, u, 0);
      if text[3] == '=' && (strict ==> q.2 == 0) then Some([q.0, q.1]) else None
    case (Some(s), Some(t), None, None) =>
      var q := Octets(s, t, 0, 0);
      if text[2] == '=' && text[3] == '=' && (strict ==> q.1 == 0) then Some([q.0]) else None
    case _ => None
  }

  function DecodeGroup(text: string): Option<Bytes>
    requires |text| == 4
  {
    match (SextetOf(text[0]), SextetOf(text[1]), SextetOf(text[2]), SextetOf(text[3]))
    case (Some(s), Some(t), Some(u), Some(v)) =>
      var q := Octets(s, t, u, v);
      Some([q.0, q.1, q.2])
    case _ => None
  }

  function DecodeGroups(strict: bool, text: string): Option<Bytes>
    decreases |text|
  {
    if text == "" then Some([])
    else if |text| < 4 then None
    else if |text| == 4 then DecodeTail(strict, text)
    else
      match (DecodeGroup(text[..4]), DecodeGroups(strict, text[4..]))
      case (Some(first), Some(rest)) => Some(first + rest)
      case _ => None
  }

  /** `DecodeString`, with or without `Strict`. */
  function Decode(strict: bool, text: string): Option<Bytes> {
    DecodeGroups(strict, Strip(text))
  }

  lemma DecodeOfGroup(a: byte, b: byte, c: byte)
    ensures DecodeGroup(EncodeGroup(a, b, c)) == Some([a, b, c])
  {
    var q := Sextets(a, b, c);
    SymbolRoundTrip(q.0);
    SymbolRoundTrip(q.1);
    SymbolRoundTrip(q.2);
    SymbolRoundTrip(q.3);
    OctetsOfSextets(a, b, c);
  }

  lemma DecodeOfTail(strict: bool, bytes: Bytes)
    requires 1 <= |bytes| <= 2
    ensures DecodeTail(strict, EncodeTail(bytes)) == Some(bytes)
  {
    hide Symbol, SextetOf, Octets, Sextets;
    var second := if |bytes| == 2 then bytes[1] else 0;
    var q := Sextets(bytes[0], second, 0);
    SymbolRoundTrip(q.0);
    SymbolRoundTrip(q.1);
    SymbolRoundTrip(q.2);
    OctetsOfSextets(bytes[0], second, 0);
    PaddingIsZero(bytes[0], second);
    if |bytes| == 2 {
      assert bytes == [bytes[0], bytes[1]];
    } else {
      assert bytes == [bytes[0]];
    }
  }

  lemma PaddingIsZero(a: byte, b: byte)
    ensures SextetOf('=') == None
    ensures var q := Sextets(a, b, 0);
            && q.3 == 0
            && (b == 0 ==> q.2 == 0)
  {
  }

  lemma {:induction false} DecodeOfEncodeGroups(strict: bool, bytes: Bytes)
    ensures DecodeGroups(strict, Encode(bytes)) == Some(bytes)
    decreases |bytes|
  {
    hide DecodeTail, DecodeGroup, EncodeTail, EncodeGroup;
    var text := Encode(bytes);
    if bytes == [] {
    } else if |bytes| < 3 {
      DecodeOfTail(strict, bytes);
    } else {
      var group := EncodeGroup(bytes[0], bytes[1], bytes[2]);
      DecodeOfGroup(bytes[0], bytes[1], bytes[2]);
      DecodeOfEncodeGroups(strict, bytes[3..]);
      GroupLength(bytes[0], bytes[1], bytes[2]);
      assert text[..4] == group && text[4..] == Encode(bytes[3..]);
      assert bytes == [bytes[0], bytes[1], bytes[2]] + bytes[3..];
      if |bytes| == 3 {
        assert bytes[3..] == [] && group + "" == group;
        assert text == group && bytes == [bytes[0], bytes[1], bytes[2]];
        GroupIsTail(strict, group);
      }
    }
  }

  lemma GroupLength(a: byte, b: byte, c: byte)
    ensures |EncodeGroup(a, b, c)| == 4
  {
  }

  lemma GroupIsTail(strict: bool, group: string)
    requires |group| == 4 && DecodeGroup(group).Some?
    ensures DecodeTail(strict, group) == DecodeGroup(group)
  {
  }

  predicate NoBreaks(text: string) {
    forall i | 0 <= i < |text| :: !IsBreak(text[i])
  }

  lemma {:induction false} StripNothing(text: string)
    requires NoBreaks(text)
    ensures Strip(text) == text
  {
    if text != "" {
      StripNothing(text[1..]);
    }
  }

  lemma GroupHasNoBreaks(a: byte, b: byte, c: byte)
    ensures NoBreaks(EncodeGroup(a, b, c))
  {
    var q := Sextets(a, b, c);
    SymbolRoundTrip(q.0);
    SymbolRoundTrip(q.1);
    SymbolRoundTrip(q.2);
    SymbolRoundTrip(q.3);
  }

  lemma {:induction false} EncodeHasNoBreaks(bytes: Bytes)
    ensures NoBreaks(Encode(bytes))
    decreases |bytes|
  {
    if 0 < |bytes| < 3 {
      GroupHasNoBreaks(bytes[0], if |bytes| == 2 then bytes[1] else 0, 0);
    } else if bytes != [] {
      GroupHasNoBreaks(bytes[0], bytes[1], bytes[2]);
      EncodeHasNoBreaks(bytes[3..]);
    }
  }

  /** Decoding, strict or not, undoes encoding. */
  lemma DecodeOfEncode(strict: bool, bytes: Bytes)
    ensures Decode(strict, Encode(bytes)) == Some(bytes)
  {
    EncodeHasNoBreaks(bytes);
    StripNothing(Encode(bytes));
    DecodeOfEncodeGroups(strict, bytes);
  }

  lemma EncodeOfGroup(text: string)
    requires |text| == 4 && DecodeGroup(text).Some?
    ensures var bytes := DecodeGroup(text).value; |bytes| == 3 && EncodeGroup(bytes[0], bytes[1], bytes[2]) == text
  {
    hide Octets, Sextets, Symbol, SextetOf;
    SextetRoundTrip(text[0]);
    SextetRoundTrip(text[1]);
    SextetRoundTrip(text[2]);
    SextetRoundTrip(text[3]);
    SextetsOfOctets(SextetOf(text[0]).value, SextetOf(text[1]).value, SextetOf(text[2]).value, SextetOf(text[3]).value);
  }

  lemma OctetsZero(s: Sextet, t: Sextet)
    ensures Octets(s, t, 0, 0).2 == 0
  {
  }

  lemma EncodeOfTail(text: string)
    requires |text| == 4 && DecodeTail(true, text).Some?
    ensures var bytes := DecodeTail(true, text).value; 1 <= |bytes| <= 3 && Encode(bytes) == text
  {
    hide Octets, Sextets, Symbol, SextetOf;
    var bytes := DecodeTail(true, text).value;
    if SextetOf(text[3]).Some? {
      EncodeOfGroup(text);
      assert bytes[3..] == [] && EncodeGroup(bytes[0], bytes[1], bytes[2]) + "" == text;
    } else {
      SextetRoundTrip(text[0]);
      SextetRoundTrip(text[1]);
      SextetRoundTrip(text[2]);
      var u := if SextetOf(text[2]).Some? then SextetOf(text[2]).value else 0;
      SextetsOfOctets(SextetOf(text[0]).value, SextetOf(text[1]).value, u, 0);
      OctetsZero(SextetOf(text[0]).value, SextetOf(text[1]).value);
      assert EncodeTail(bytes) == [text[0], text[1], text[2], text[3]] == text;
    }
  }

  lemma {:induction false} EncodeOfDecodeGroups(text: string)
    requires DecodeGroups(true, text).Some?
    ensures Encode(DecodeGroups(true, text).value) == text
    decreases |text|
  {
    hide DecodeTail, DecodeGroup, EncodeGroup, EncodeTail;
    if |text| == 4 {
      EncodeOfTail(text);
    } else if text != "" {
      var first, rest := DecodeGroup(text[..4]).value, DecodeGroups(true, text[4..]).value;
      EncodeOfGroup(text[..4]);
      EncodeOfDecodeGroups(text[4..]);
      assert (first + rest)[3..] == rest;
      assert text == text[..4] + text[4..];
    }
  }

  /** A text that strict decoding accepts is the encoding of its bytes once line breaks are removed. */
  lemma EncodeOfDecode(text: string)
    requires Decode(true, text).Some?
    ensures Encode(Decode(true, text).value) == Strip(text)
  {
    EncodeOfDecodeGroups(Strip(text));
  }

  /** Strict decoding accepts exactly the encodings, with line breaks anywhere. */
  lemma StrictAccepts(text: string)
    ensures Decode(true, text).Some? <==> exists bytes :: Encode(bytes) == Strip(text)
  {
    if Decode(true, text).Some? {
      EncodeOfDecode(text);
      assert Encode(Decode(true, text).value) == Strip(text);
    }
    if bytes :| Encode(bytes) == Strip(text) {
      DecodeOfEncodeGroups(true, bytes);
    }
  }

  // ---- The encoding of section 4 of RFC 4648, spelled out ----

  const ALPHABET := "ABCDEFGHIJKLMNOPQRSTUVWXYZabcdefghijklmnopqrstuvwxyz0123456789+/"

  const UPPER := "ABCDEFGHIJKLMNOPQRSTUVWXYZ"
  const LOWER := "abcdefghijklmnopqrstuvwxyz"
  const NUMERALS := "0123456789"

  lemma UpperIsListed(n: nat)
    requires n < 26
    ensures |UPPER| == 26 && (n + 'A' as int) as char == UPPER[n]
  {
  }

  lemma LowerIsListed(n: nat)
    requires n < 26
    ensures |LOWER| == 26 && (n + 'a' as int) as char == LOWER[n]
  {
  }

  lemma NumeralIsListed(n: nat)
    requires n < 10
    ensures |NUMERALS| == 10 && (n + '0' as int) as char == NUMERALS[n]
  {
  }

  lemma SymbolIsListed(n: Sextet)
    ensures |ALPHABET| == 64 && Symbol(n) == ALPHABET[n]
  {
    if n < 26 {
      UpperIsListed(n);
    } else if n < 52 {
      LowerIsListed(n - 26);
    } else if n < 62 {
      NumeralIsListed(n - 52);
    }
  }

  /** The big-endian number of three bytes. */
  function Number(a: nat, b: nat, c: nat): nat {
    (a * 256 + b) * 256 + c
  }

  /** Four symbols for a number of 24 bits, the most significant first. */
  function Digits(value: nat): string
    requires value < 0x100_0000
  {
    ListedLength();
    [ALPHABET[value / 64 / 64 / 64], ALPHABET[value / 64 / 64 % 64], ALPHABET[value / 64 % 64], ALPHABET[value % 64]]
  }

  lemma ListedLength()
    ensures |ALPHABET| == 64
  {
    SymbolIsListed(0);
  }

  lemma Divided(high: nat, low: nat)
    requires low < 64
    ensures (high * 64 + low) / 64 == high && (high * 64 + low) % 64 == low
  {
  }

  lemma SextetsAreDigits(a: byte, b: byte, c: byte)
    ensures var value := Number(a, b, c);
            && value < 0x100_0000
            && Sextets(a, b, c) == (value / 64 / 64 / 64, value / 64 / 64 % 64, value / 64 % 64, value % 64)
  {
    var first: nat, second: nat, third: nat := a, b, c;
    var q: (nat, nat, nat, nat) := (first / 4, first % 4 * 16 + second / 16, second % 16 * 4 + third / 64, third % 64);
    var upper := first * 16 + second / 16;
    var middle := upper * 64 + q.2;
    assert upper == q.0 * 64 + q.1;
    assert middle == first * 1024 + second * 4 + third / 64;
    assert Number(a, b, c) == middle * 64 + q.3;
    Divided(middle, q.3);
    Divided(upper, q.2);
    Divided(q.0, q.1);
  }

  lemma GroupIsDigits(a: byte, b: byte, c: byte)
    ensures EncodeGroup(a, b, c) == Digits(Number(a, b, c))
  {
    SextetsAreDigits(a, b, c);
    var q := Sextets(a, b, c);
    SymbolIsListed(q.0);
    SymbolIsListed(q.1);
    SymbolIsListed(q.2);
    SymbolIsListed(q.3);
  }

  /** Every three bytes are one big-endian number, written with four digits of the alphabet. */
  lemma {:induction false} EncodesBigEndian(bytes: Bytes, g: nat)
    requires 3 * g + 3 <= |bytes|
    ensures 4 * g + 4 <= |Encode(bytes)|
    ensures Encode(bytes)[4 * g..4 * g + 4] ==
            Digits(Number(bytes[3 * g], bytes[3 * g + 1], bytes[3 * g + 2]))
  {
    hide Digits, EncodeGroup;
    GroupIsDigits(bytes[0], bytes[1], bytes[2]);
    var group, rest := EncodeGroup(bytes[0], bytes[1], bytes[2]), Encode(bytes[3..]);
    GroupLength(bytes[0], bytes[1], bytes[2]);
    if g == 0 {
      assert (group + rest)[0..4] == group;
    } else {
      EncodesBigEndian(bytes[3..], g - 1);
      assert (group + rest)[4 * g..4 * g + 4] == rest[4 * (g - 1)..4 * (g - 1) + 4];
    }
  }

  /** One or two bytes that are left over are filled up with zero bits, and the group with padding. */
  lemma {:induction false} EncodesTail(bytes: Bytes)
    requires |bytes| % 3 != 0
    ensures var n := |bytes| / 3;
            && |Encode(bytes)| == 4 * n + 4
            && Encode(bytes)[4 * n..] ==
               if |bytes| % 3 == 1 then Digits(Number(bytes[3 * n], 0, 0))[..2] + "=="
               else Digits(Number(bytes[3 * n], bytes[3 * n + 1], 0))[..3] + "="
  {
    hide Digits, EncodeGroup, EncodeTail;
    if |bytes| < 3 {
      TailIsDigits(bytes);
    } else {
      GroupLength(bytes[0], bytes[1], bytes[2]);
      EncodesTail(bytes[3..]);
      var n := |bytes| / 3;
      assert |bytes[3..]| / 3 == n - 1 && |bytes[3..]| % 3 == |bytes| % 3;
      var group, rest := EncodeGroup(bytes[0], bytes[1], bytes[2]), Encode(bytes[3..]);
      assert (group + rest)[4 * n..] == rest[4 * (n - 1)..];
    }
  }

  lemma TailIsDigits(bytes: Bytes)
    requires 1 <= |bytes| <= 2
    ensures EncodeTail(bytes) ==
            if |bytes| == 1 then Digits(Number(bytes[0], 0, 0))[..2] + "=="
            else Digits(Number(bytes[0], bytes[1], 0))[..3] + "="
  {
    var second: byte := if |bytes| == 2 then bytes[1] else 0;
    SextetsAreDigits(bytes[0], second, 0);
    var q := Sextets(bytes[0], second, 0);
    SymbolIsListed(q.0);
    SymbolIsListed(q.1);
    SymbolIsListed(q.2);
  }
}
