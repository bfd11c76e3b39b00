/** What the macOS adapter stores and reads back: internal/backend/darwin/client.go and errors.go. */
module Keychain {
  import opened Wrappers
  import opened Errors
  import opened Texts
  import Base64
  import Layout
  import Unicode

  const LEGACY_PREFIX := "go-keyring-encoded:"
  const BASE64_PREFIX := "go-keyring-base64:"

  const UNDECODABLE := Other(21, true)

  function HexValue(c: char): Option<nat> {
    if '0' <= c <= '9' then Some(c as int - '0' as int)
    else if 'a' <= c <= 'f' then Some(c as int - 'a' as int + 10)
    else if 'A' <= c <= 'F' then Some(c as int - 'A' as int + 10)
    else None
  }

  /** `hex.DecodeString`. */
  function DecodeHex(text: string): Option<Bytes>
    decreases |text|
  {
    if text == "" then Some([])
    else if |text| == 1 then None
    else
      match (HexValue(text[0]), HexValue(text[1]), DecodeHex(text[2..]))
      case (Some(high), Some(low), Some(rest)) => Some([(high * 16 + low) as byte] + rest)
      case _ => None
  }

  function Decoded(bytes: Option<Bytes>): Result<Bytes, Error> {
    match bytes
    case Some(value) => Success(value)
    case None => Failure(Tag(BackendFailure, UNDECODABLE))
  }

  /** `decodeValue`. */
  function DecodeValue(value: string): Result<Bytes, Error> {
    if LEGACY_PREFIX <= value then Decoded(DecodeHex(value[|LEGACY_PREFIX|..]))
    else if BASE64_PREFIX <= value then Decoded(Base64.Decode(false, value[|BASE64_PREFIX|..]))
    else Success(Unicode.Encode(value))
  }

  function TrimLeft(text: string): string {
    if text != "" && IsSpace(text[0]) then TrimLeft(text[1..]) else text
  }

  function TrimRight(text: string): string {
    if text != "" && IsSpace(text[|text| - 1]) then TrimRight(text[..|text| - 1]) else text
  }

  /** `strings.TrimSpace`. */
  function TrimSpace(text: string): string {
    TrimRight(TrimLeft(text))
  }

  /** What `Get` makes of the output of the security tool. */
  function ReadOutput(output: string): Result<Bytes, Error> {
    DecodeValue(TrimSpace(output))
  }

  /** What `Set` hands to the security tool. */
  function Stored(value: Bytes): string {
    BASE64_PREFIX + Base64.Encode(value)
  }

  predicate AllSpace(text: string) {
    forall i | 0 <= i < |text| :: IsSpace(text[i])
  }

  /** Text that trimming leaves alone. */
  predicate Trimmed(text: string) {
    text != "" ==> !IsSpace(text[0]) && !IsSpace(text[|text| - 1])
  }

  lemma {:induction false} TrimLeftOf(before: string, text: string)
    requires AllSpace(before) && (text == "" || !IsSpace(text[0]))
    ensures TrimLeft(before + text) == text
  {
    if before != "" {
      assert (before + text)[1..] == before[1..] + text;
      TrimLeftOf(before[1..], text);
    } else {
      assert before + text == text;
    }
  }

  lemma {:induction false} TrimRightOf(text: string, after: string)
    requires AllSpace(after) && (text == "" || !IsSpace(text[|text| - 1]))
    ensures TrimRight(text + after) == text
    decreases |after|
  {
    if after != "" {
      assert (text + after)[..|text + after| - 1] == text + after[..|after| - 1];
      TrimRightOf(text, after[..|after| - 1]);
    } else {
      assert text + after == text;
    }
  }

  /** White space around a value does not matter. */
  lemma TrimOfPadded(before: string, text: string, after: string)
    requires AllSpace(before) && AllSpace(after) && Trimmed(text) && text != ""
    ensures TrimSpace(before + text + after) == text
  {
    assert before + text + after == before + (text + after);
    assert (text + after)[0] == text[0];
    TrimLeftOf(before, text + after);
    TrimRightOf(text, after);
  }

  predicate NoSpaces(text: string) {
    forall i | 0 <= i < |text| :: !IsSpace(text[i])
  }

  lemma SymbolIsNoSpace(n: Base64.Sextet)
    ensures !IsSpace(Base64.Symbol(n)) && !IsSpace('=')
  {
  }

  lemma GroupHasNoSpaces(a: byte, b: byte, c: byte)
    ensures NoSpaces(Base64.EncodeGroup(a, b, c))
  {
    hide Base64.Symbol, Base64.Sextets, IsSpace;
    var q := Base64.Sextets(a, b, c);
    SymbolIsNoSpace(q.0);
    SymbolIsNoSpace(q.1);
    SymbolIsNoSpace(q.2);
    SymbolIsNoSpace(q.3);
  }

  lemma TailHasNoSpaces(bytes: Bytes)
    requires 1 <= |bytes| <= 2
    ensures NoSpaces(Base64.EncodeTail(bytes))
  {
    hide Base64.Symbol, Base64.Sextets, IsSpace;
    var q := Base64.Sextets(bytes[0], if |bytes| == 2 then bytes[1] else 0, 0);
    SymbolIsNoSpace(q.0);
    SymbolIsNoSpace(q.1);
    SymbolIsNoSpace(q.2);
  }

  lemma {:induction false} EncodingHasNoSpaces(bytes: Bytes)
    ensures NoSpaces(Base64.Encode(bytes))
    decreases |bytes|
  {
    hide Base64.EncodeGroup, Base64.EncodeTail, IsSpace;
    if 0 < |bytes| < 3 {
      TailHasNoSpaces(bytes);
    } else if bytes != [] {
      GroupHasNoSpaces(bytes[0], bytes[1], bytes[2]);
      EncodingHasNoSpaces(bytes[3..]);
    }
  }

  /** Every value that was set is read back, whatever white space the tool adds around it. */
  lemma ReadOfStored(value: Bytes, before: string, after: string)
    requires AllSpace(before) && AllSpace(after)
    ensures Stored(value) == "go-keyring-base64:" + Base64.Encode(value)
    ensures ReadOutput(before + Stored(value) + after) == Success(value)
  {
    hide Base64.Encode, Base64.Decode, TrimSpace;
    var text := Stored(value);
    EncodingHasNoSpaces(value);
    assert text[0] == 'g' && text[11] == 'b';
    assert Trimmed(text) by {
      assert !IsSpace('g') && !IsSpace(':');
    }
    TrimOfPadded(before, text, after);
    assert !(LEGACY_PREFIX <= text) by {
      assert LEGACY_PREFIX[11] == 'e';
    }
    assert text[|BASE64_PREFIX|..] == Base64.Encode(value);
    Base64.DecodeOfEncode(false, value);
  }

  lemma HexDigitValue(n: nat)
    requires n < 16
    ensures HexValue(Layout.HexDigit(n)) == Some(n)
    ensures !IsSpace(Layout.HexDigit(n))
  {
  }

  lemma {:induction false} DecodeOfHex(bytes: Bytes)
    ensures DecodeHex(Layout.Hex(bytes)) == Some(bytes)
    ensures NoSpaces(Layout.Hex(bytes))
  {
    hide HexValue, Layout.HexDigit, IsSpace;
    if bytes != [] {
      var text := Layout.Hex(bytes);
      HexDigitValue(bytes[0] / 16);
      HexDigitValue(bytes[0] % 16);
      DecodeOfHex(bytes[1..]);
      assert text[2..] == Layout.Hex(bytes[1..]);
      assert [bytes[0]] + bytes[1..] == bytes;
    }
  }

  /** Values left by the legacy hexadecimal encoding are read back as well. */
  lemma ReadOfLegacy(value: Bytes, before: string, after: string)
    requires AllSpace(before) && AllSpace(after)
    ensures ReadOutput(before + ("go-keyring-encoded:" + Layout.Hex(value)) + after) == Success(value)
  {
    hide Layout.Hex, DecodeHex, TrimSpace;
    var text := LEGACY_PREFIX + Layout.Hex(value);
    DecodeOfHex(value);
    assert text[0] == 'g';
    assert Trimmed(text) by {
      assert !IsSpace('g') && !IsSpace(':');
    }
    TrimOfPadded(before, text, after);
    assert text[|LEGACY_PREFIX|..] == Layout.Hex(value);
  }

  /** A value that another program stored plainly is returned as it is, up to the white space around it. */
  lemma ReadOfPlain(text: string, before: string, after: string)
    requires AllSpace(before) && AllSpace(after) && Trimmed(text) && text != ""
    requires !("go-keyring-encoded:" <= text) && !("go-keyring-base64:" <= text)
    ensures ReadOutput(before + text + after) == Success(Unicode.Encode(text))
  {
    hide TrimSpace;
    TrimOfPadded(before, text, after);
  }

  predicate IsHex(c: char) {
    '0' <= c <= '9' || 'a' <= c <= 'f' || 'A' <= c <= 'F'
  }

  /** Hexadecimal text is decoded exactly when it is whole bytes of digits, of either case. */
  lemma {:induction false} HexAccepts(text: string)
    ensures DecodeHex(text).Some? <==> |text| % 2 == 0 && forall i | 0 <= i < |text| :: IsHex(text[i])
    decreases |text|
  {
    if |text| >= 2 {
      var rest := text[2..];
      HexAccepts(rest);
      assert forall i | 0 <= i < |rest| :: rest[i] == text[i + 2];
      assert forall i | 2 <= i < |text| :: text[i] == rest[i - 2];
    }
  }

  /** A marked value that is not what its mark says is a failure of the backend, and nothing else is refused. */
  lemma ReadOfBroken(text: string, before: string, after: string)
    requires AllSpace(before) && AllSpace(after) && Trimmed(text) && text != ""
    ensures var result := ReadOutput(before + text + after);
            && (result.Failure? <==>
                  || ("go-keyring-encoded:" <= text && DecodeHex(text[19..]).None?)
                  || ("go-keyring-base64:" <= text && Base64.Decode(false, text[18..]).None?))
            && (result.Failure? ==> Exactly(result.error, BackendFailure))
  {
    hide TrimSpace, DecodeHex, Base64.Decode;
    TrimOfPadded(before, text, after);
    forall category: Category
      ensures IsCategory(Tag(BackendFailure, UNDECODABLE), category) <==> category == BackendFailure
    {
      TagIs(BackendFailure, UNDECODABLE, category);
    }
    assert "go-keyring-encoded:" <= text ==> text[11] == 'e';
    assert "go-keyring-base64:" <= text ==> text[11] == 'b';
  }
}
