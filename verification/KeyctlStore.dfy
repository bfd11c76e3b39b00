/** The kernel keyring as a store: internal/backend/keyctl/keyring_linux.go:63-106, 137-151. */
module KeyctlStore {
  import opened Wrappers
  import opened Errors
  import opened Contexts
  import opened Keyctl
  import opened Layout
  import opened Program
  import FakeKeyring

  const ENOKEY := OtherNumber(126)
  const EKEYEXPIRED := OtherNumber(127)
  const EKEYREVOKED := OtherNumber(128)
  const ENOSYS := OtherNumber(38)
  const ENODEV := OtherNumber(19)

  /** The errors by which the kernel says that there is no such key any more. */
  predicate Vanished(err: Error) {
    Is(err, Errno(ENOKEY)) || Is(err, Errno(EKEYEXPIRED)) || Is(err, Errno(EKEYREVOKED))
  }

  /** `operationError` of this backend, for a non-nil error. */
  function KeyError(err: Error): Error {
    if Vanished(err) then Tag(NotFound, err)
    else if Is(err, Std(Permission)) || Is(err, Errno(EPERM)) then Tag(PermissionDenied, err)
    else if Is(err, Errno(ENOSYS)) || Is(err, Errno(ENODEV)) then Tag(BackendUnavailable, err)
    else Tag(BackendFailure, err)
  }

  /** A key is reported as not found exactly when the kernel said so. */
  lemma MissingExactly(err: Error)
    ensures IsCategory(KeyError(err), NotFound) <==> Vanished(err) || IsCategory(err, NotFound)
  {
    hide Is;
    forall category: Category
      ensures IsCategory(Tag(category, err), NotFound) <==> category == NotFound || IsCategory(err, NotFound)
    {
      TagIs(category, err, NotFound);
    }
  }

  /** The category of each system error. */
  function NumberCategory(number: SystemNumber): Category {
    if number in {ENOKEY, EKEYEXPIRED, EKEYREVOKED} then NotFound
    else if number in {EPERM, EACCES} then PermissionDenied
    else if number in {ENOSYS, ENODEV} then BackendUnavailable
    else BackendFailure
  }

  lemma NumberIsTagged(number: SystemNumber)
    ensures KeyError(Errno(number)) == Tag(NumberCategory(number), Errno(number))
  {
    hide Tag;
  }

  /** Every system error gets exactly one category. */
  lemma NumbersAreClassified(number: SystemNumber, category: Category)
    ensures IsCategory(KeyError(Errno(number)), category) <==> category == NumberCategory(number)
  {
    hide Tag, IsCategory, KeyError, NumberCategory;
    NumberIsTagged(number);
    TaggedNumber(NumberCategory(number), number, category);
  }

  /**
   The failure of an operation whose latest call met this fault: a system error under exactly its
   category, any other error kept; without a fault, a key that is not there.
   */
  ghost predicate Says(fault: Option<Error>, err: Error) {
    match fault
    case None => Exactly(err, NotFound)
    case Some(cause) =>
      Keeps(err, cause) && forall number: SystemNumber | cause == Errno(number) :: Exactly(err, NumberCategory(number))
  }

  lemma KeyErrorSays(err: Error)
    ensures Says(Some(err), KeyError(err))
    ensures err == Errno(ENOKEY) ==> Says(None, KeyError(err))
  {
    hide KeyError, IsCategory, NumberCategory;
    KeyErrorKeeps(err);
    forall number: SystemNumber, category: Category | err == Errno(number)
      ensures IsCategory(KeyError(err), category) <==> category == NumberCategory(number)
    {
      NumbersAreClassified(number, category);
    }
    NoKeyIsNotFound();
  }

  lemma NoKeyIsNotFound()
    ensures NumberCategory(ENOKEY) == NotFound
  {
  }

  lemma KeyErrorKeeps(err: Error)
    ensures Keeps(KeyError(err), err)
  {
    hide Vanished;
    forall target: Error | Is(err, target)
      ensures Is(KeyError(err), target)
    {
    }
  }

  /** A fault that does not pretend that a key is missing. */
  predicate Honest(fault: Option<Error>) {
    fault.Some? ==> !Vanished(fault.value) && !IsCategory(fault.value, NotFound)
  }

  /** The user-session keyring: payloads by description, and what fails at which call. */
  class Session {
    var keys: map<string, Bytes>
    const faults: nat -> Option<Error>
    var calls: nat

    ghost predicate Valid()
      reads this
    {
      forall name <- keys :: |keys[name]| <= PAYLOAD_LIMIT
    }

    constructor (faults: nat -> Option<Error>)
      ensures Valid() && keys == map[] && this.faults == faults
    {
      this.faults, keys, calls := faults, map[], 0;
    }

    /** `KEYCTL_SEARCH`; the description stands for the serial number found. */
    method Search(name: string) returns (result: Result<string, Error>)
      modifies this`calls
      ensures calls == old(calls) + 1
      ensures result.Success? ==> name in keys && result.value == name
      ensures result.Failure? ==>
                if faults(old(calls)).Some? then faults(old(calls)) == Some(result.error)
                else name !in keys && result.error == Errno(ENOKEY)
      ensures faults(old(calls)).None? ==> (result.Success? <==> name in keys)
    {
      var fault := faults(calls);
      calls := calls + 1;
      if fault.Some? {
        return Failure(fault.value);
      }
      if name !in keys {
        return Failure(Errno(ENOKEY));
      }
      return Success(name);
    }

    /** `add_key`: creates the key or replaces its payload. */
    method Add(name: string, payload: Bytes) returns (problem: Option<Error>)
      requires Valid() && |payload| <= PAYLOAD_LIMIT
      modifies this
      ensures Valid() && problem == faults(old(calls)) && calls == old(calls) + 1
      ensures keys == if problem.None? then old(keys)[name := payload] else old(keys)
    {
      problem := faults(calls);
      calls := calls + 1;
      if problem.None? {
        keys := keys[name := payload];
      }
    }

    /** `KEYCTL_UNLINK`. */
    method Unlink(name: string) returns (problem: Option<Error>)
      requires Valid()
      modifies this
      ensures Valid() && problem == faults(old(calls)) && calls == old(calls) + 1
      ensures keys == if problem.None? then old(keys) - {name} else old(keys)
    {
      problem := faults(calls);
      calls := calls + 1;
      if problem.None? {
        keys := keys - {name};
      }
    }

    /** Reading the payload while nobody replaces it. */
    method Contents(name: string) returns (result: Result<Bytes, Error>)
      requires Valid() && name in keys
      modifies this`calls
      ensures result.Success? ==> result.value == keys[name]
      ensures calls > old(calls)
      ensures result.Failure? ==> faults(calls - 1) == Some(result.error)
    {
      var script, start, payload := faults, calls, keys[name];
      var key := new Key((n: nat) => match script(start + n) case Some(err) => Failure(err) case None => Success(payload));
      result := ReadKeyContents(key);
      calls := start + key.calls;
      assert result.Failure? ==> script(start + (key.calls - 1)) == Some(result.error);
    }
  }

  ghost predicate AllHonest(faults: nat -> Option<Error>) {
    forall n :: Honest(faults(n))
  }

  ghost predicate Faultless(faults: nat -> Option<Error>) {
    forall n :: faults(n).None?
  }

  lemma FaultlessAt(faults: nat -> Option<Error>, n: nat)
    ensures Faultless(faults) ==> faults(n).None?
  {
  }

  class Keyring {
    const session: Session
    const service: string
    const hash: Hash

    constructor (hash: Hash, session: Session, service: string)
      ensures this.hash == hash && this.session == session && this.service == service
    {
      this.hash, this.session, this.service := hash, session, service;
    }

    function Name(key: string): string {
      KeyName(hash, service, key)
    }

    /** `Get`: the whole payload, or a failure that says "not found" only when there is no key. */
    method Get(ctx: Context, key: string) returns (result: Result<Bytes, Error>)
      requires session.Valid()
      modifies session`calls
      ensures ctx != Live ==> result.Failure? && EndedBy(ctx, result.error)
      ensures ctx == Live && result.Failure? ==>
                session.calls > old(session.calls) && Says(session.faults(session.calls - 1), result.error)
      ensures result.Success? ==> Name(key) in session.keys && result.value == session.keys[Name(key)]
      ensures ctx == Live && Name(key) !in session.keys && Faultless(session.faults) ==>
                result.Failure? && IsCategory(result.error, NotFound)
      ensures ctx == Live && result.Failure? && AllHonest(session.faults) && IsCategory(result.error, NotFound) ==>
                Name(key) !in session.keys
      ensures ctx == Live && Faultless(session.faults) ==> (result.Success? <==> Name(key) in session.keys)
    {
      hide IsCategory, Vanished, KeyError, KeyName, Says, Exactly, EndedBy;
      ContextErrorIsClassified(ctx);
      var ended := ContextError(ctx);
      if ended.Some? {
        return Failure(ended.value);
      }
      MissingIsVanished();
      FaultlessIsHonest(session.faults);
      var credential := session.Search(Name(key));
      if credential.Failure? {
        MissingExactly(credential.error);
        KeyErrorSays(credential.error);
        return Failure(KeyError(credential.error));
      }
      result := session.Contents(credential.value);
      if result.Failure? {
        MissingExactly(result.error);
        KeyErrorSays(result.error);
        ghost var n := session.calls - 1;
        assert AllHonest(session.faults) ==> Honest(session.faults(n));
        FaultlessAt(session.faults, n);
        return Failure(KeyError(result.error));
      }
    }

    /** `Set`: the new payload under the key's name, or nothing changed at all. */
    method Set(ctx: Context, key: string, value: Bytes) returns (failure: Option<Error>)
      requires session.Valid()
      modifies session
      ensures session.Valid()
      ensures failure.None? ==> session.keys == old(session.keys)[Name(key) := value]
      ensures failure.Some? ==> session.keys == old(session.keys)
      ensures ctx != Live ==> failure.Some? && EndedBy(ctx, failure.value)
      ensures ctx == Live && |value| > 32767 ==> failure.Some? && Exactly(failure.value, ValueTooLarge)
      ensures ctx == Live && |value| <= 32767 ==>
                if session.faults(old(session.calls)).None? then failure.None?
                else failure.Some? && Says(session.faults(old(session.calls)), failure.value)
      ensures ctx == Live && |value| <= 32767 && Faultless(session.faults) ==> failure.None?
    {
      hide KeyName, KeyError, Says, Exactly, EndedBy;
      ContextErrorIsClassified(ctx);
      var ended := ContextError(ctx);
      if ended.Some? {
        return ended;
      }
      if |value| > PAYLOAD_LIMIT {
        FaultIsExactly(ValueTooLarge);
        return Some(Fault(ValueTooLarge));
      }
      var problem := session.Add(Name(key), value);
      if problem.Some? {
        KeyErrorSays(problem.value);
        return Some(KeyError(problem.value));
      }
      return None;
    }

    /** `Delete`: the key is gone, or nothing changed; "not found" only when there was no key. */
    method Delete(ctx: Context, key: string) returns (failure: Option<Error>)
      requires session.Valid()
      modifies session
      ensures session.Valid()
      ensures failure.None? ==> Name(key) in old(session.keys) && session.keys == old(session.keys) - {Name(key)}
      ensures failure.Some? ==> session.keys == old(session.keys)
      ensures ctx != Live ==> failure.Some? && EndedBy(ctx, failure.value)
      ensures ctx == Live && failure.Some? ==>
                session.calls > old(session.calls) && Says(session.faults(session.calls - 1), failure.value)
      ensures ctx == Live && failure.Some? && AllHonest(session.faults) && IsCategory(failure.value, NotFound) ==>
                Name(key) !in old(session.keys)
      ensures ctx == Live && Faultless(session.faults) ==>
                if Name(key) in old(session.keys) then failure.None? else failure.Some? && IsCategory(failure.value, NotFound)
    {
      hide IsCategory, Vanished, KeyError, KeyName, Says, Exactly, EndedBy;
      ContextErrorIsClassified(ctx);
      var ended := ContextError(ctx);
      if ended.Some? {
        return ended;
      }
      MissingIsVanished();
      var credential := session.Search(Name(key));
      if credential.Failure? {
        MissingExactly(credential.error);
        KeyErrorSays(credential.error);
        return Some(KeyError(credential.error));
      }
      ghost var n := session.calls;
      var problem := session.Unlink(credential.value);
      if problem.Some? {
        MissingExactly(problem.value);
        KeyErrorSays(problem.value);
        assert AllHonest(session.faults) ==> Honest(session.faults(n));
        return Some(KeyError(problem.value));
      }
      return None;
    }
  }

  lemma MissingIsVanished()
    ensures Vanished(Errno(ENOKEY))
  {
  }

  // ---- The map ----

  type Credential = (string, string)

  /** The services in use have no NUL, and nothing hashed for the credentials in use collides. */
  ghost predicate NoCollisions(hash: Hash, used: set<Credential>) {
    && (forall a <- used :: '\0' !in a.0)
    && forall a <- used, b <- used :: hash(Hashed(a.0, a.1)) == hash(Hashed(b.0, b.1)) ==> Hashed(a.0, a.1) == Hashed(b.0, b.1)
  }

  /** The keys stand for the table, on the credentials in use. */
  ghost predicate Represents(hash: Hash, keys: map<string, Bytes>, table: FakeKeyring.Table, used: set<Credential>) {
    forall credential <- used ::
      var name := KeyName(hash, credential.0, credential.1);
      && (credential in table <==> name in keys)
      && (credential in table ==> keys[name] == table[credential])
  }

  lemma NamesDistinct(hash: Hash, used: set<Credential>, a: Credential, b: Credential)
    requires NoCollisions(hash, used) && a in used && b in used
    requires KeyName(hash, a.0, a.1) == KeyName(hash, b.0, b.1)
    ensures a == b
  {
    hide Hex;
    var x, y := KeyName(hash, a.0, a.1), KeyName(hash, b.0, b.1);
    assert x[|NAME_PREFIX|..] == Hex(hash(Hashed(a.0, a.1)));
    assert y[|NAME_PREFIX|..] == Hex(hash(Hashed(b.0, b.1)));
    HexInjective(hash(Hashed(a.0, a.1)), hash(Hashed(b.0, b.1)));
    ServiceDetermined(a.0, a.1, b.0, b.1);
  }

  lemma StaysRepresented(hash: Hash, keys: map<string, Bytes>, table: FakeKeyring.Table, used: set<Credential>,
                         credential: Credential, value: Bytes)
    requires NoCollisions(hash, used) && credential in used && Represents(hash, keys, table, used)
    ensures var name := KeyName(hash, credential.0, credential.1);
            && Represents(hash, keys[name := value], table[credential := value], used)
            && Represents(hash, keys - {name}, table - {credential}, used)
  {
    hide NoCollisions, KeyName;
    forall other <- used | KeyName(hash, other.0, other.1) == KeyName(hash, credential.0, credential.1)
      ensures other == credential
    {
      NamesDistinct(hash, used, other, credential);
    }
  }

  function Acknowledged(failure: Option<Error>): Reply {
    match failure
    case Some(err) => Rejected(err)
    case None => Stored
  }

  /**
   Without faults, the kernel keyring answers each request as the in-memory map does, for every value
   the kernel can hold.
   */
  method Serve(hash: Hash, session: Session, request: FakeKeyring.Request, ghost table: FakeKeyring.Table, ghost used: set<Credential>)
    returns (reply: Reply)
    requires session.Valid() && Faultless(session.faults) && NoCollisions(hash, used)
    requires FakeKeyring.Entry(request) in used && Represents(hash, session.keys, table, used)
    requires request.Store? ==> |request.value| <= PAYLOAD_LIMIT
    modifies session
    ensures session.Valid() && Represents(hash, session.keys, FakeKeyring.Step(table, request).0, used)
    ensures match FakeKeyring.Step(table, request).1
            case Rejected(_) => reply.Rejected? && IsCategory(reply.error, NotFound)
            case expected => reply == expected
  {
    hide NoCollisions, IsCategory, KeyName, Faultless;
    FaultlessIsHonest(session.faults);
    ghost var credential := FakeKeyring.Entry(request);
    var keyring := new Keyring(hash, session, request.service);
    match request {
      case Fetch(_, key) =>
        var got := keyring.Get(Live, key);
        reply := match got case Success(value) => Value(value) case Failure(err) => Rejected(err);
      case Store(_, key, value) =>
        StaysRepresented(hash, session.keys, table, used, credential, value);
        var failure := keyring.Set(Live, key, value);
        reply := Acknowledged(failure);
      case Remove(_, key) =>
        StaysRepresented(hash, session.keys, table, used, credential, []);
        var failure := keyring.Delete(Live, key);
        reply := Acknowledged(failure);
    }
  }

  lemma FaultlessIsHonest(faults: nat -> Option<Error>)
    ensures Faultless(faults) ==> AllHonest(faults)
  {
  }
}
