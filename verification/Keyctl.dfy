/** Reading a kernel key whose payload may change meanwhile: internal/backend/keyctl/keyring_linux.go. */
module Keyctl {
  import opened Wrappers
  import opened Errors
  import opened Layout
  import opened Texts

  /** `userKeyPayloadLimit`. */
  const PAYLOAD_LIMIT: nat := 32767

  /**
   A key of the kernel. Other holders of the key may replace its payload between any two calls:
   `answers` is what the key holds, or why it cannot be read, at each call.
   */
  class Key {
    const answers: nat -> Result<Bytes, Error>
    var calls: nat

    constructor (answers: nat -> Result<Bytes, Error>)
      ensures this.answers == answers && calls == 0
    {
      this.answers, calls := answers, 0;
    }

    /**
     `KEYCTL_READ`: reports the size of the payload, and fills the buffer with as much of it as
     fits. Nothing is promised about a buffer that is too small.
     */
    method Read(buffer: array<byte>) returns (result: Result<nat, Error>)
      modifies this, buffer
      ensures calls == old(calls) + 1
      ensures match answers(old(calls))
              case Failure(err) => result == Failure(err)
              case Success(payload) =>
                && result == Success(|payload|)
                && (|payload| <= buffer.Length ==> buffer[..|payload|] == payload)
    {
      var answer := answers(calls);
      calls := calls + 1;
      match answer {
        case Failure(err) => result := Failure(err);
        case Success(payload) =>
          var n := if |payload| <= buffer.Length then |payload| else buffer.Length;
          for i := 0 to n
            invariant buffer[..i] == payload[..i]
            modifies buffer
          {
            buffer[i] := payload[i];
          }
          result := Success(|payload|);
      }
    }
  }

  /** The kernel never holds more than the limit. */
  ghost predicate Bounded(answers: nat -> Result<Bytes, Error>) {
    forall n :: answers(n).Success? ==> |answers(n).value| <= PAYLOAD_LIMIT
  }

  /** From the first call to the last but one, every payload was longer than the one before it. */
  ghost predicate Growing(answers: nat -> Result<Bytes, Error>, first: nat, last: nat) {
    && (forall n | first <= n < last :: answers(n).Success?)
    && (forall n | first < n < last :: |answers(n).value| > |answers(n - 1).value|)
  }

  lemma WithinLimit(answers: nat -> Result<Bytes, Error>, n: nat)
    requires Bounded(answers)
    ensures answers(n).Success? ==> |answers(n).value| <= PAYLOAD_LIMIT
  {
  }

  lemma StartsGrowing(answers: nat -> Result<Bytes, Error>, first: nat)
    ensures Growing(answers, first, first)
    ensures answers(first).Success? ==> Growing(answers, first, first + 1)
  {
  }

  lemma GrowsMore(answers: nat -> Result<Bytes, Error>, first: nat, last: nat)
    requires first < last && Growing(answers, first, last)
    ensures answers(last).Success? && |answers(last).value| > |answers(last - 1).value| ==> Growing(answers, first, last + 1)
  {
  }

  /**
   `readKeyContents` always ends, and returns the payload of its last read, neither cut nor padded.
   It reads again exactly as long as the payload outgrows the buffer.
   */
  method ReadKeyContents(key: Key) returns (result: Result<Bytes, Error>)
    requires Bounded(key.answers)
    modifies key
    ensures key.calls > old(key.calls)
    ensures result == key.answers(key.calls - 1)
    ensures Growing(key.answers, old(key.calls), key.calls - 1)
    ensures result.Success? ==>
              && key.calls >= old(key.calls) + 2
              && |result.value| <= |key.answers(key.calls - 2).value|
  {
    hide Bounded, Growing;
    var nothing := new byte[0];
    StartsGrowing(key.answers, key.calls);
    var sized := key.Read(nothing);
    if sized.Failure? {
      return Failure(sized.error);
    }
    var size := sized.value;
    while true
      invariant key.calls > old(key.calls)
      invariant key.answers(key.calls - 1).Success? && size == |key.answers(key.calls - 1).value|
      invariant Growing(key.answers, old(key.calls), key.calls)
      decreases PAYLOAD_LIMIT - size
    {
      GrowsMore(key.answers, old(key.calls), key.calls);
      WithinLimit(key.answers, key.calls);
      var value := new byte[size];
      var read := key.Read(value);
      if read.Failure? {
        return Failure(read.error);
      }
      if read.value <= value.Length {
        return Success(value[..read.value]);
      }
      size := read.value;
    }
  }

  // ---- Names ----

  const SERVICE_PREFIX := "common.queueb.org/keyring:kernel:v1\0service\0"
  const KEY_SEPARATOR := "\0key\0"
  const NAME_PREFIX := "keyring:v1:"

  /** What `keyName` hashes. */
  function Hashed(service: string, key: string): string {
    SERVICE_PREFIX + service + KEY_SEPARATOR + key
  }

  function KeyName(hash: Hash, service: string, key: string): string {
    NAME_PREFIX + Hex(hash(Hashed(service, key)))
  }

  /** Unless the hash collides, one service never gives two keys the same name. */
  lemma KeyDetermined(hash: Hash, service: string, key: string, other: string)
    requires KeyName(hash, service, key) == KeyName(hash, service, other)
    requires hash(Hashed(service, key)) == hash(Hashed(service, other)) ==> Hashed(service, key) == Hashed(service, other)
    ensures key == other
  {
    var a, b := KeyName(hash, service, key), KeyName(hash, service, other);
    assert a[|NAME_PREFIX|..] == Hex(hash(Hashed(service, key)));
    assert b[|NAME_PREFIX|..] == Hex(hash(Hashed(service, other)));
    HexInjective(hash(Hashed(service, key)), hash(Hashed(service, other)));
    var n := |SERVICE_PREFIX + service + KEY_SEPARATOR|;
    assert key == Hashed(service, key)[n..] && other == Hashed(service, other)[n..];
  }

  /** Services without a NUL are told apart too. */
  lemma ServiceDetermined(service: string, key: string, other: string, otherKey: string)
    requires '\0' !in service && '\0' !in other
    requires Hashed(service, key) == Hashed(other, otherKey)
    ensures service == other && key == otherKey
  {
    var rest, more := "key\0" + key, "key\0" + otherKey;
    assert Hashed(service, key) == SERVICE_PREFIX + (service + ['\0'] + rest);
    assert Hashed(other, otherKey) == SERVICE_PREFIX + (other + ['\0'] + more);
    assert service + ['\0'] + rest == Hashed(service, key)[|SERVICE_PREFIX|..];
    assert other + ['\0'] + more == Hashed(other, otherKey)[|SERVICE_PREFIX|..];
    FirstSeparator(service, other, rest, more, '\0');
    assert key == rest[4..] && otherKey == more[4..];
  }

  /** Some key of each service is hashed as the same text. */
  ghost predicate Meet(service: string, other: string) {
    exists key, otherKey :: Hashed(service, key) == Hashed(other, otherKey)
  }

  lemma PrefixMeets(service: string, other: string)
    requires service + KEY_SEPARATOR <= other + KEY_SEPARATOR
    ensures Meet(service, other)
  {
    var text := other + KEY_SEPARATOR;
    var key := text[|service + KEY_SEPARATOR|..];
    assert text == service + KEY_SEPARATOR + key;
    assert Hashed(service, key) == SERVICE_PREFIX + text;
    assert Hashed(other, "") == SERVICE_PREFIX + text;
  }

  lemma MeetIsPrefix(service: string, other: string, key: string, otherKey: string)
    requires Hashed(service, key) == Hashed(other, otherKey) && |service| <= |other|
    ensures service + KEY_SEPARATOR <= other + KEY_SEPARATOR
  {
    var text := Hashed(service, key)[|SERVICE_PREFIX|..];
    assert Hashed(service, key) == SERVICE_PREFIX + (service + KEY_SEPARATOR + key);
    assert Hashed(other, otherKey) == SERVICE_PREFIX + (other + KEY_SEPARATOR + otherKey);
    assert text == service + KEY_SEPARATOR + key == other + KEY_SEPARATOR + otherKey;
    assert text[..|service + KEY_SEPARATOR|] == service + KEY_SEPARATOR;
    assert text[..|other + KEY_SEPARATOR|] == other + KEY_SEPARATOR;
  }

  /** Credentials of two services can share a kernel key exactly when one service, with the separator, begins the other. */
  lemma ServicesMeetExactly(service: string, other: string)
    ensures Meet(service, other) <==>
            service + KEY_SEPARATOR <= other + KEY_SEPARATOR || other + KEY_SEPARATOR <= service + KEY_SEPARATOR
  {
    hide Hashed;
    if Meet(service, other) {
      var key, otherKey :| Hashed(service, key) == Hashed(other, otherKey);
      if |service| <= |other| {
        MeetIsPrefix(service, other, key, otherKey);
      } else {
        MeetIsPrefix(other, service, otherKey, key);
      }
    }
    if service + KEY_SEPARATOR <= other + KEY_SEPARATOR {
      PrefixMeets(service, other);
    }
    if other + KEY_SEPARATOR <= service + KEY_SEPARATOR {
      PrefixMeets(other, service);
      MeetIsSymmetric(other, service);
    }
  }

  lemma MeetIsSymmetric(service: string, other: string)
    requires Meet(service, other)
    ensures Meet(other, service)
  {
    hide Hashed;
    var key, otherKey :| Hashed(service, key) == Hashed(other, otherKey);
    assert Hashed(other, otherKey) == Hashed(service, key);
  }

  /** With a NUL in the service the separator can be imitated, and two credentials share one kernel key. */
  lemma ServicesCanMeet(hash: Hash)
    ensures KeyName(hash, "a", "b\0key\0c") == KeyName(hash, "a\0key\0b", "c")
  {
    assert "a" + KEY_SEPARATOR + "b\0key\0c" == "a\0key\0b" + KEY_SEPARATOR + "c";
    assert Hashed("a", "b\0key\0c") == SERVICE_PREFIX + ("a" + KEY_SEPARATOR + "b\0key\0c");
    assert Hashed("a\0key\0b", "c") == SERVICE_PREFIX + ("a\0key\0b" + KEY_SEPARATOR + "c");
  }
}
