/**
 Names on disk: internal/backend/fs/layout.go and the temporary names of storage_linux.go.

 SHA-256 is a parameter: any function whose results are 32 bytes long.
 */
module Layout {
  import opened Wrappers

  const SERVICE_DOMAIN := "service\0"
  const KEY_DOMAIN := "key\0"
  const TEMPORARY_PREFIX := ".tmp-"
  const DIGEST_BYTES: nat := 32
  const RANDOM_BYTES: nat := 16
  const STRIPES: nat := 64

  type Digest = d: Bytes | |d| == DIGEST_BYTES witness seq(DIGEST_BYTES, _ => 0)

  type Hash = string -> Digest

  function HexDigit(n: nat): char
    requires n < 16
  {
    "0123456789abcdef"[n]
  }

  predicate IsHexDigit(c: char) {
    '0' <= c <= '9' || 'a' <= c <= 'f'
  }

  /** `hex.EncodeToString`. */
  function Hex(bytes: Bytes): (s: string)
    ensures |s| == 2 * |bytes|
    ensures forall i | 0 <= i < |s| :: IsHexDigit(s[i])
  {
    if bytes == [] then
      ""
    else
      [HexDigit(bytes[0] / 16), HexDigit(bytes[0] % 16)] + Hex(bytes[1..])
  }

  lemma HexDigitInjective(m: nat, n: nat)
    requires m < 16 && n < 16
    requires HexDigit(m) == HexDigit(n)
    ensures m == n
  {
  }

  lemma {:induction false} HexInjective(a: Bytes, b: Bytes)
    requires Hex(a) == Hex(b)
    ensures a == b
  {
    assert |a| == |b|;
    if a != [] {
      var x, y := Hex(a), Hex(b);
      assert x[0] == HexDigit(a[0] / 16) && x[1] == HexDigit(a[0] % 16);
      assert y[0] == HexDigit(b[0] / 16) && y[1] == HexDigit(b[0] % 16);
      HexDigitInjective(a[0] / 16, b[0] / 16);
      HexDigitInjective(a[0] % 16, b[0] % 16);
      assert x[2..] == Hex(a[1..]) && y[2..] == Hex(b[1..]);
      HexInjective(a[1..], b[1..]);
      assert a == [a[0]] + a[1..] && b == [b[0]] + b[1..];
    }
  }

  /** The two digits of each byte, the higher one first. */
  lemma {:induction false} HexDigits(bytes: Bytes, i: nat)
    requires i < |bytes|
    ensures Hex(bytes)[2 * i..2 * i + 2] == ["0123456789abcdef"[bytes[i] / 16], "0123456789abcdef"[bytes[i] % 16]]
  {
    if i > 0 {
      HexDigits(bytes[1..], i - 1);
      assert Hex(bytes)[2..] == Hex(bytes[1..]);
      assert Hex(bytes)[2 * i..2 * i + 2] == Hex(bytes[1..])[2 * (i - 1)..2 * (i - 1) + 2];
    }
  }

  /** `identifier(domain, value)`. */
  function Identifier(hash: Hash, domain: string, value: string): string {
    Hex(hash(domain + value))
  }

  predicate IsCredentialName(name: string) {
    |name| == 2 * DIGEST_BYTES && forall i | 0 <= i < |name| :: IsHexDigit(name[i])
  }

  function TemporaryName(random: Bytes): string {
    TEMPORARY_PREFIX + Hex(random)
  }

  /** The index `mutationLock` takes from a digest. */
  function Stripe(digest: Digest): (stripe: nat)
    ensures stripe < STRIPES
  {
    digest[0] % STRIPES
  }

  /** Credential and temporary names can never be equal, whatever the key and the random bytes. */
  lemma NamesApart(digest: Digest, random: Bytes)
    ensures IsCredentialName(Hex(digest))
    ensures !IsCredentialName(TemporaryName(random))
    ensures Hex(digest) != TemporaryName(random)
  {
    assert TemporaryName(random)[0] == '.';
  }

  /** Two keys that share a credential name also share the mutation lock: the lock covers the name. */
  lemma SameNameSameStripe(hash: Hash, key: string, other: string)
    requires Identifier(hash, KEY_DOMAIN, key) == Identifier(hash, KEY_DOMAIN, other)
    ensures Stripe(hash(KEY_DOMAIN + key)) == Stripe(hash(KEY_DOMAIN + other))
  {
    HexInjective(hash(KEY_DOMAIN + key), hash(KEY_DOMAIN + other));
  }

  /** What is hashed for a service is never what is hashed for a key. */
  lemma DomainsApart(service: string, key: string)
    ensures SERVICE_DOMAIN + service != KEY_DOMAIN + key
  {
    assert (SERVICE_DOMAIN + service)[0] == 's';
    assert (KEY_DOMAIN + key)[0] == 'k';
  }

  /** Without collisions on the hashed texts in use, equal identifiers come from equal values. */
  lemma IdentifiersDistinguish(hash: Hash, domain: string, value: string, other: string)
    requires Identifier(hash, domain, value) == Identifier(hash, domain, other)
    requires hash(domain + value) == hash(domain + other) ==> domain + value == domain + other
    ensures value == other
  {
    HexInjective(hash(domain + value), hash(domain + other));
    assert value == (domain + value)[|domain|..];
    assert other == (domain + other)[|domain|..];
  }
}
