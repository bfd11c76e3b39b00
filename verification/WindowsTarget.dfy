/** The Windows credential target of a service and key: internal/backend/windows/client.go:83-118. */
module WindowsTarget {
  import opened Wrappers
  import opened Errors
  import opened Texts
  import opened Unicode

  const MAXIMUM_USERNAME_UNITS: nat := 513
  const MAXIMUM_TARGET_UNITS: nat := 32767

  const COLON: byte := 0x3A

  /** `utf16Units`. */
  function Utf16Units(value: Bytes): nat {
    |Utf16(Runes(value))|
  }

  /** `validatedTarget`; a Go string is its bytes. */
  function ValidatedTarget(service: Bytes, key: Bytes): Result<Bytes, Error> {
    if service == [] then
      Failure(Fault(InvalidArgument))
    else if key == [] then
      Failure(Fault(InvalidArgument))
    else if 0 in service || 0 in key then
      Failure(Fault(InvalidArgument))
    else if !Valid(service) || !Valid(key) then
      Failure(Fault(InvalidArgument))
    else if Utf16Units(key) > MAXIMUM_USERNAME_UNITS then
      Failure(Fault(InvalidArgument))
    else
      var target := service + [COLON] + key;
      if Utf16Units(target) > MAXIMUM_TARGET_UNITS then Failure(Fault(InvalidArgument)) else Success(target)
  }

  /** The length of valid UTF-8 in UTF-16 units, counted character by character. */
  lemma UnitsCounted(text: string)
    ensures Utf16Units(Encode(text)) == |text| + Supplementary(text)
  {
    assert Runes([]) == "";
    hide Encode, Runes, Utf16, Supplementary;
    RunesOfEncode(text, []);
    assert Encode(text) + [] == Encode(text);
    assert text + Runes([]) == text;
    Utf16Length(text);
  }

  /** A name Windows can store. */
  predicate ValidName(name: Bytes) {
    name != [] && 0 !in name && Valid(name)
  }

  /** UTF-16 length is additive behind valid UTF-8, and the colon is one unit. */
  lemma UnitsOfTarget(service: Bytes, key: Bytes)
    requires Valid(service)
    ensures Utf16Units(service + [COLON] + key) == Utf16Units(service) + 1 + Utf16Units(key)
  {
    hide Runes, Valid, Utf16;
    assert service + [COLON] + key == service + ([COLON] + key);
    RunesAppend(service, [COLON] + key);
    ColonIsOneUnit();
    RunesAppend([COLON], key);
    Utf16Append(Runes(service), Runes([COLON] + key));
    Utf16Append(Runes([COLON]), Runes(key));
  }

  lemma ColonIsOneUnit()
    ensures Valid([COLON]) && |Utf16(Runes([COLON]))| == 1
  {
    assert Encode(":") == [COLON] by {
      assert EncodeChar(':') == [COLON];
    }
    RunesOfEncode(":", []);
    assert [COLON] + [] == [COLON] && ":" + "" == ":";
  }

  /** Exactly the pairs that Windows can store are accepted, and the target is service, colon, key. */
  lemma TargetsAccepted(service: Bytes, key: Bytes, target: Bytes)
    ensures ValidatedTarget(service, key) == Success(target) <==>
            && ValidName(service) && ValidName(key)
            && Utf16Units(key) <= 513
            && Utf16Units(service) + 1 + Utf16Units(key) <= 32767
            && target == service + [COLON] + key
    ensures ValidatedTarget(service, key).Failure? ==> Exactly(ValidatedTarget(service, key).error, InvalidArgument)
  {
    hide Utf16Units, Valid;
    if Valid(service) {
      UnitsOfTarget(service, key);
    }
    FaultIsExactly(InvalidArgument);
  }

  /** For one service, different keys have different targets. */
  lemma KeyDetermined(service: Bytes, key: Bytes, other: Bytes)
    requires ValidatedTarget(service, key).Success?
    requires ValidatedTarget(service, other) == ValidatedTarget(service, key)
    ensures key == other
  {
    hide Utf16Units, Valid;
    assert key == (service + [COLON] + key)[|service| + 1..];
    assert other == (service + [COLON] + other)[|service| + 1..];
  }

  /** Services without a colon are told apart as well. */
  lemma ServiceDetermined(service: Bytes, key: Bytes, other: Bytes, otherKey: Bytes)
    requires COLON !in service && COLON !in other
    requires ValidatedTarget(service, key).Success?
    requires ValidatedTarget(other, otherKey) == ValidatedTarget(service, key)
    ensures service == other && key == otherKey
  {
    hide Utf16Units, Valid;
    FirstSeparator(service, other, key, otherKey, COLON);
  }

  /** One service continues the other behind a colon, by so little that both still leave room for a key. */
  predicate Continues(service: Bytes, other: Bytes) {
    && service + [COLON] <= other
    && Utf16Units(other[|service| + 1..]) + 2 <= MAXIMUM_USERNAME_UNITS
    && Utf16Units(other) + 2 <= MAXIMUM_TARGET_UNITS
  }

  /** Two services have credentials in common with each other: some key of each gives the same accepted target. */
  ghost predicate Meet(service: Bytes, other: Bytes) {
    exists key, otherKey ::
      ValidatedTarget(service, key).Success? && ValidatedTarget(other, otherKey) == ValidatedTarget(service, key)
  }

  lemma SomeUnits(name: Bytes)
    requires ValidName(name)
    ensures Utf16Units(name) >= 1
  {
    EncodeOfRunes(name);
  }

  /** What follows the colon in a longer service is valid and free of NUL when the service is. */
  lemma RestIsValid(service: Bytes, rest: Bytes)
    requires ValidName(service) && Valid(service + [COLON] + rest) && 0 !in service + [COLON] + rest
    ensures Valid(rest) && 0 !in rest
  {
    hide Valid, Runes;
    assert service + [COLON] + rest == service + ([COLON] + rest);
    RunesAppend(service, [COLON] + rest);
    ColonIsOneUnit();
    RunesAppend([COLON], rest);
    assert forall i | 0 <= i < |rest| :: rest[i] == (service + [COLON] + rest)[|service| + 1 + i];
  }

  const LETTER: Bytes := [0x61]

  lemma LetterIsOneUnit()
    ensures ValidName(LETTER) && Utf16Units(LETTER) == 1
  {
    assert Encode("a") == LETTER by {
      assert EncodeChar('a') == LETTER;
    }
    RunesOfEncode("a", []);
    assert LETTER + [] == LETTER && "a" + "" == "a";
  }

  lemma ContinuesMeet(service: Bytes, other: Bytes)
    requires ValidName(service) && ValidName(other) && Continues(service, other)
    ensures Meet(service, other)
  {
    hide Utf16Units, Valid, ValidatedTarget;
    var rest := other[|service| + 1..];
    assert other == service + [COLON] + rest;
    RestIsValid(service, rest);
    LetterIsOneUnit();
    var key := rest + [COLON] + LETTER;
    UnitsOfTarget(rest, LETTER);
    RunesAppend(rest, [COLON] + LETTER);
    ColonIsOneUnit();
    RunesAppend([COLON], LETTER);
    assert key == rest + ([COLON] + LETTER);
    UnitsOfTarget(other, LETTER);
    UnitsOfTarget(service, key);
    var target := other + [COLON] + LETTER;
    assert target == service + [COLON] + key;
    TargetsAccepted(other, LETTER, target);
    TargetsAccepted(service, key, target);
  }

  lemma MeetContinues(service: Bytes, other: Bytes, key: Bytes, otherKey: Bytes)
    requires |service| < |other|
    requires ValidatedTarget(service, key).Success? && ValidatedTarget(other, otherKey) == ValidatedTarget(service, key)
    ensures Continues(service, other)
  {
    hide Utf16Units, Valid, ValidatedTarget;
    var target := ValidatedTarget(service, key).value;
    TargetsAccepted(service, key, target);
    TargetsAccepted(other, otherKey, target);
    var rest := other[|service| + 1..];
    assert target[..|other|] == other && target[..|service| + 1] == service + [COLON];
    assert service + [COLON] <= other;
    assert other == service + [COLON] + rest;
    RestIsValid(service, rest);
    assert key == target[|service| + 1..];
    assert otherKey == target[|other| + 1..];
    assert key == rest + [COLON] + otherKey;
    UnitsOfTarget(rest, otherKey);
    SomeUnits(otherKey);
  }

  /**
   Two different services share a target exactly when one continues the other behind a colon, within
   the bounds: a colon in a service name is what makes credentials of two services coincide.
   */
  lemma ServicesMeetExactly(service: Bytes, other: Bytes)
    requires ValidName(service) && ValidName(other) && service != other
    ensures Meet(service, other) <==> Continues(service, other) || Continues(other, service)
  {
    hide ValidatedTarget, Valid, Utf16Units, Continues;
    if Meet(service, other) {
      var key, otherKey :|
        ValidatedTarget(service, key).Success? && ValidatedTarget(other, otherKey) == ValidatedTarget(service, key);
      if |service| < |other| {
        MeetContinues(service, other, key, otherKey);
      } else if |other| < |service| {
        MeetContinues(other, service, otherKey, key);
      } else {
        SameLengthSame(service, other, key, otherKey);
      }
    }
    if Continues(service, other) {
      ContinuesMeet(service, other);
    }
    if Continues(other, service) {
      ContinuesMeet(other, service);
    }
  }

  lemma SameLengthSame(service: Bytes, other: Bytes, key: Bytes, otherKey: Bytes)
    requires |service| == |other|
    requires ValidatedTarget(service, key).Success? && ValidatedTarget(other, otherKey) == ValidatedTarget(service, key)
    ensures service == other
  {
    hide Utf16Units, Valid;
    var target := ValidatedTarget(service, key).value;
    assert service == target[..|service|] && other == target[..|other|];
  }

  /** A pair of services that does share a target: "a" and "a:a". */
  lemma ServicesCanMeet()
    ensures Meet(LETTER, LETTER + [COLON] + LETTER)
  {
    hide Utf16Units, Valid;
    var other := LETTER + [COLON] + LETTER;
    LetterIsOneUnit();
    ColonIsOneUnit();
    UnitsOfTarget(LETTER, LETTER);
    RunesAppend(LETTER, [COLON] + LETTER);
    RunesAppend([COLON], LETTER);
    assert other == LETTER + ([COLON] + LETTER);
    assert other[|LETTER| + 1..] == LETTER;
    assert other[..|LETTER| + 1] == LETTER + [COLON];
    ContinuesMeet(LETTER, other);
  }
}
