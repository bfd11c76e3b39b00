/**
 Without faults, the filesystem keyrings of any number of services under one root answer like the
 in-memory map keyed by (service, key).
 */
module Refinement {
  import opened Wrappers
  import opened Errors
  import opened Contexts
  import opened Filesystem
  import opened Program
  import opened Invariants
  import opened Answers
  import opened LinuxSystem
  import opened Storage
  import opened Layout
  import opened FilesystemKeyring
  import opened FakeKeyring

  type Credential = (string, string)

  function PathOfCredential(hash: Hash, credential: Credential): Path {
    Path(Identifier(hash, SERVICE_DOMAIN, credential.0), Identifier(hash, KEY_DOMAIN, credential.1))
  }

  /** No two texts hashed for the credentials in use collide. */
  ghost predicate NoCollisions(hash: Hash, used: set<Credential>) {
    forall a <- used, b <- used ::
      && (hash(SERVICE_DOMAIN + a.0) == hash(SERVICE_DOMAIN + b.0) ==> a.0 == b.0)
      && (hash(KEY_DOMAIN + a.1) == hash(KEY_DOMAIN + b.1) ==> a.1 == b.1)
  }

  /** Only complete, secure credentials are on disk. */
  ghost predicate Tidy(fs: Fs) {
    forall path <- fs.entries :: IsCredentialName(path.name) && SecureAt(fs, path)
  }

  /** The files stand for the table, on the credentials in use. */
  ghost predicate Represents(hash: Hash, fs: Fs, table: Table, used: set<Credential>) {
    forall credential <- used ::
      var path := PathOfCredential(hash, credential);
      && (credential in table <==> path in fs.entries)
      && (credential in table ==> SecureAt(fs, path) && ContentAt(fs, path) == table[credential])
  }

  lemma PathsDistinct(hash: Hash, used: set<Credential>, a: Credential, b: Credential)
    requires NoCollisions(hash, used)
    requires a in used && b in used && a != b
    ensures PathOfCredential(hash, a) != PathOfCredential(hash, b)
  {
    if PathOfCredential(hash, a) == PathOfCredential(hash, b) {
      HexInjective(hash(SERVICE_DOMAIN + a.0), hash(SERVICE_DOMAIN + b.0));
      HexInjective(hash(KEY_DOMAIN + a.1), hash(KEY_DOMAIN + b.1));
    }
  }

  lemma TidyNoTemporaries(fs: Fs, path: Path)
    requires Tidy(fs)
    requires DirectoriesReady(fs, path.service)
    ensures CanSet(fs, path)
  {
  }

  lemma StoreRefines(
    hash: Hash, before: Fs, after: Fs, table: Table, used: set<Credential>, credential: Credential, value: Bytes,
    failures: set<Stage>)
    requires Consistent(before) && Tidy(before) && NoCollisions(hash, used) && credential in used
    requires Represents(hash, before, table, used)
    requires SetEffect(before, after, PathOfCredential(hash, credential), value, failures, true)
    ensures Tidy(after)
    ensures Represents(hash, after, table[credential := value], used)
  {
    var path := PathOfCredential(hash, credential);
    forall other <- used
      ensures other != credential ==> PathOfCredential(hash, other) != path
    {
      if other != credential {
        PathsDistinct(hash, used, other, credential);
      }
    }
  }

  lemma RemoveRefines(
    hash: Hash, before: Fs, after: Fs, table: Table, used: set<Credential>, credential: Credential,
    failures: set<Stage>)
    requires Tidy(before) && NoCollisions(hash, used) && credential in used
    requires Represents(hash, before, table, used)
    requires DeleteEffect(before, after, PathOfCredential(hash, credential), failures, true)
    ensures Tidy(after)
    ensures Represents(hash, after, table - {credential}, used)
  {
    var path := PathOfCredential(hash, credential);
    forall other <- used
      ensures other != credential ==> PathOfCredential(hash, other) != path
    {
      if other != credential {
        PathsDistinct(hash, used, other, credential);
      }
    }
  }

  lemma RepresentedAt(hash: Hash, fs: Fs, table: Table, used: set<Credential>, credential: Credential)
    requires Represents(hash, fs, table, used) && credential in used
    ensures var path := PathOfCredential(hash, credential);
            && (credential in table <==> path in fs.entries)
            && (credential in table ==> SecureAt(fs, path) && ContentAt(fs, path) == table[credential])
  {
  }

  /** Descriptors and durability have no part in what the files stand for. */
  lemma FilesUnchanged(hash: Hash, before: Fs, after: Fs, table: Table, used: set<Credential>)
    requires Tidy(before) && Represents(hash, before, table, used)
    requires after.entries == before.entries && after.nodes == before.nodes && after.uid == before.uid
    ensures Tidy(after) && Represents(hash, after, table, used)
  {
  }

  lemma DeletedNothing(before: Fs, after: Fs, path: Path, failures: set<Stage>)
    requires DeleteEffect(before, after, path, failures, false)
    requires path !in before.entries
    ensures after.entries == before.entries && after.nodes == before.nodes && after.uid == before.uid
    ensures after.directories == before.directories
  {
  }

  ghost predicate ServicesReady(hash: Hash, fs: Fs, used: set<Credential>) {
    forall credential <- used :: DirectoriesReady(fs, Identifier(hash, SERVICE_DOMAIN, credential.0))
  }

  lemma ServiceReady(hash: Hash, fs: Fs, used: set<Credential>, credential: Credential)
    requires ServicesReady(hash, fs, used) && credential in used
    ensures DirectoriesReady(fs, Identifier(hash, SERVICE_DOMAIN, credential.0))
  {
  }

  lemma ServicesStayReady(hash: Hash, before: Fs, after: Fs, used: set<Credential>)
    requires ServicesReady(hash, before, used)
    requires DirectoriesKept(before, after) && after.uid == before.uid
    ensures ServicesReady(hash, after, used)
  {
  }

  lemma SetKeepsDirectories(before: Fs, after: Fs, path: Path, value: Bytes, failures: set<Stage>, success: bool)
    requires SetEffect(before, after, path, value, failures, success)
    ensures DirectoriesKept(before, after) && after.uid == before.uid
  {
  }

  lemma DeleteKeepsDirectories(before: Fs, after: Fs, path: Path, failures: set<Stage>, success: bool)
    requires DeleteEffect(before, after, path, failures, success)
    ensures DirectoriesKept(before, after) && after.uid == before.uid
  {
  }

  lemma NotFoundItself()
    ensures IsCategory(Portable(NotFound), NotFound)
  {
  }

  /** Same value, same success, or both a failure of the category `NotFound`. */
  predicate Agree(reply: Reply, expected: Reply) {
    match expected
    case Rejected(err) => IsCategory(err, NotFound) && reply.Rejected? && IsCategory(reply.error, NotFound)
    case _ => reply == expected
  }

  /** What the run relies on between two requests. */
  ghost predicate Ready(hash: Hash, system: System, table: Table, used: set<Credential>)
    reads system
  {
    && Consistent(system.fs) && Tidy(system.fs)
    && AllHarmless(system.script)
    && Represents(hash, system.fs, table, used)
    && ServicesReady(hash, system.fs, used)
  }

  /** One request answered by the keyring of its service, created on the shared file system. */
  method Serve(hash: Hash, system: System, request: Request, ghost table: Table, ghost used: set<Credential>)
    returns (reply: Reply)
    requires NoCollisions(hash, used)
    requires Entry(request) in used && request.key != ""
    requires Ready(hash, system, table, used)
    modifies system
    ensures Ready(hash, system, FakeKeyring.Step(table, request).0, used)
    ensures Agree(reply, FakeKeyring.Step(table, request).1)
  {
    hide Consistent, Settled, Exactly, Refused, InsecureAt, AllHarmless, AllHonest, SetEffect, DeleteEffect, CanSet, NoCollisions, Tidy,
         Represents, ServicesReady, DirectoriesReady, Is;
    NotFoundItself();
    ServiceReady(hash, system.fs, used, Entry(request));
    var keyring := new FilesystemKeyring.Keyring(hash, system, request.service);
    ghost var before := system.fs;
    ghost var path := PathOfCredential(hash, Entry(request));
    TidyNoTemporaries(before, path);
    match request
    case Fetch(_, key) =>
      RepresentedAt(hash, before, table, used, Entry(request));
      reply := keyring.Get(Live, key);
      FilesUnchanged(hash, before, system.fs, table, used);
      ServicesStayReady(hash, before, system.fs, used);
    case Store(_, key, value) =>
      reply := keyring.Set(Live, key, value);
      StoreRefines(hash, before, system.fs, table, used, Entry(request), value, system.failures);
      SetKeepsDirectories(before, system.fs, path, value, system.failures, true);
      ServicesStayReady(hash, before, system.fs, used);
    case Remove(_, key) =>
      RepresentedAt(hash, before, table, used, Entry(request));
      reply := keyring.Delete(Live, key);
      DeleteKeepsDirectories(before, system.fs, path, system.failures, reply.Stored?);
      ServicesStayReady(hash, before, system.fs, used);
      if Entry(request) in table {
        RemoveRefines(hash, before, system.fs, table, used, Entry(request), system.failures);
      } else {
        DeletedNothing(before, system.fs, path, system.failures);
        FilesUnchanged(hash, before, system.fs, table, used);
      }
  }

  /** Any sequence of requests: the files answer as the map does. */
  method ServeAll(hash: Hash, system: System, requests: seq<Request>, ghost table: Table, ghost used: set<Credential>)
    returns (replies: seq<Reply>)
    requires NoCollisions(hash, used)
    requires forall request <- requests :: Entry(request) in used && request.key != ""
    requires Ready(hash, system, table, used)
    modifies system
    ensures |replies| == |requests|
    ensures forall i | 0 <= i < |requests| :: Agree(replies[i], FakeKeyring.Run(table, requests)[i])
  {
    hide Ready, NoCollisions, Agree;
    replies := [];
    ghost var current := table;
    while |replies| < |requests|
      invariant |replies| <= |requests|
      invariant Ready(hash, system, current, used)
      invariant FakeKeyring.Run(table, requests)[|replies|..] == FakeKeyring.Run(current, requests[|replies|..])
      invariant forall i | 0 <= i < |replies| :: Agree(replies[i], FakeKeyring.Run(table, requests)[i])
    {
      ghost var done, expected := |replies|, FakeKeyring.Run(table, requests);
      assert requests[done..][1..] == requests[done + 1..];
      assert expected[done] == expected[done..][0] && expected[done..][1..] == expected[done + 1..];
      var reply := Serve(hash, system, requests[|replies|], current, used);
      current := FakeKeyring.Step(current, requests[done]).0;
      replies := replies + [reply];
    }
  }
}
