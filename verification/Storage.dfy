/** `linuxStorage` of internal/backend/fs/storage_linux.go: get, set and delete under any fault script. */
module Storage {
  import opened Wrappers
  import opened Errors
  import opened Filesystem
  import opened Program
  import opened Invariants
  import opened Answers
  import opened LinuxSystem
  import Layout

  ghost predicate SecureAt(fs: Fs, path: Path) {
    && path in fs.entries
    && fs.entries[path] in fs.nodes
    && SecureMeta(fs.nodes[fs.entries[path]].meta, Regular, fs.uid)
  }

  ghost function ContentAt(fs: Fs, path: Path): Bytes
    requires SecureAt(fs, path)
  {
    fs.nodes[fs.entries[path]].content
  }

  /** What is bound to the name is not a regular file of the user, or grants something to group or others. */
  ghost predicate InsecureAt(fs: Fs, path: Path) {
    && path in fs.entries
    && fs.entries[path] in fs.nodes
    && !Private(fs.nodes[fs.entries[path]].meta, fs.uid)
  }

  /** The two errors of an insecure file: what inspection says, and what opening a symbolic link says. */
  predicate SaysInsecure(err: Error) {
    err == Errors.Fault(InsecureFallback) || err == Errno(ELOOP)
  }

  /** `openCredential` succeeds on a secure file; its failures are not mistaken for a missing name. */
  ghost predicate CredentialVerdict(before: Fs, path: Path, script: seq<Disturbance>, result: Result<int, Error>) {
    && (result.Success? ==> SecureAt(before, path))
    && (AllHarmless(script) && path !in before.entries ==> result.Failure? && Is(result.error, Std(NotExist)))
    && (AllHarmless(script) && SecureAt(before, path) ==> result.Success?)
    && (AllHarmless(script) && InsecureAt(before, path) ==> result.Failure? && SaysInsecure(result.error))
    && (AllHonest(script) && result.Failure? ==> NotMisleading(result.error))
    && (AllHonest(script) && result.Failure? && Is(result.error, Std(NotExist)) ==>
          path !in before.entries && !IsCategory(result.error, InsecureFallback))
  }

  /** The credential names other than `path` keep their binding, and a crash can do no more to them than before. */
  ghost predicate OthersKept(before: Fs, after: Fs, path: Path) {
    && before.synced <= after.synced
    && (forall inode <- before.nodes :: inode in after.nodes && after.nodes[inode] == before.nodes[inode])
    && (forall other: Path | other != path && Layout.IsCredentialName(other.name) ::
          Binding(after, other) == Binding(before, other) && Candidates(after, other) <= Candidates(before, other))
  }

  /** `path` is bound to a new, complete, private file, synced before a crash could expose it. */
  ghost predicate Replaced(before: Fs, after: Fs, path: Path, value: Bytes) {
    var inode := before.nextInode;
    && after.entries == before.entries[path := inode]
    && after.nodes == before.nodes[inode := Node(Meta(Regular, before.uid, SECRET_MODE), value)]
    && inode in after.synced
    && Candidates(after, path) <= Candidates(before, path) + {Some(inode)}
  }

  /** The name still has its old file; at most a temporary stayed behind, and only if its removal failed. */
  ghost predicate Untouched(before: Fs, after: Fs, path: Path, cleanupFailed: bool) {
    && Binding(after, path) == Binding(before, path)
    && Candidates(after, path) == Candidates(before, path)
    && (!cleanupFailed ==> after.entries == before.entries)
    && forall other <- after.entries :: other in before.entries || !Layout.IsCredentialName(other.name)
  }

  ghost predicate NoTemporaries(fs: Fs, service: string) {
    forall path <- fs.entries :: path.service == service ==> Layout.IsCredentialName(path.name)
  }

  /** `after` is `before` plus one new inode, bound to a new temporary name and open on `descriptor` if that is given. */
  ghost predicate Staged(before: Fs, after: Fs, temporary: Path, descriptor: Option<int>, node: Node) {
    var inode := before.nextInode;
    && temporary !in before.entries
    && !Layout.IsCredentialName(temporary.name)
    && (descriptor.Some? ==> descriptor.value !in before.open)
    && after == before.(
                  entries := before.entries[temporary := inode],
                  nodes := before.nodes[inode := node],
                  open := if descriptor.Some? then before.open[descriptor.value := FileHandle(inode, true, 0)] else before.open,
                  candidates := before.candidates[temporary := Candidates(before, temporary) + {Some(inode)}],
                  synced := after.synced,
                  nextInode := inode + 1,
                  nextDescriptor := after.nextDescriptor)
    && after.synced - {inode} == before.synced - {inode}
  }

  /** Only the content of one inode, and whether it is synced, has changed. */
  ghost predicate OnlyContent(before: Fs, after: Fs, inode: Inode) {
    && inode in before.nodes && inode in after.nodes
    && after == before.(
                  nodes := before.nodes[inode := before.nodes[inode].(content := after.nodes[inode].content)],
                  synced := after.synced)
    && after.synced - {inode} == before.synced - {inode}
  }

  /** The credential has been replaced, nothing else has changed, and no descriptor is left. */
  ghost predicate Published(before: Fs, after: Fs, path: Path, value: Bytes) {
    && Replaced(before, after, path, value)
    && OthersKept(before, after, path)
    && after == before.(entries := after.entries, nodes := after.nodes, candidates := after.candidates,
                        synced := after.synced, nextInode := after.nextInode, nextDescriptor := after.nextDescriptor)
  }

  /** What `set` may do, told from the stages at which a call failed and from whether it reported success. */
  ghost predicate SetEffect(before: Fs, after: Fs, path: Path, value: Bytes, failures: set<Stage>, success: bool) {
    && after.open == before.open
    && after.uid == before.uid && DirectoriesKept(before, after)
    && OthersKept(before, after, path)
    && (success ==> DirectorySync !in failures && Cleanup !in failures && Candidates(after, path) == {Binding(after, path)})
    && (success || DirectorySync in failures ==> Replaced(before, after, path, value) && Cleanup !in failures)
    && (!success && DirectorySync !in failures ==> Untouched(before, after, path, Cleanup in failures))
  }

  lemma NothingWritten(fs: Fs, path: Path, value: Bytes, failures: set<Stage>)
    requires failures <= {Early}
    ensures SetEffect(fs, fs, path, value, failures, false)
  {
  }

  /** Nothing that is there stands in the way of a Set. */
  ghost predicate Replaceable(fs: Fs, path: Path) {
    path in fs.entries ==> SecureAt(fs, path)
  }

  /** Without faults a Set succeeds from here. */
  ghost predicate CanSet(fs: Fs, path: Path) {
    DirectoriesAcceptable(fs, path.service) && NoTemporaries(fs, path.service) && Replaceable(fs, path)
  }

  lemma SameFilesSame(before: Fs, after: Fs, service: string, path: Path)
    requires SameFiles(before, after)
    ensures NoTemporaries(after, service) == NoTemporaries(before, service)
    ensures Replaceable(after, path) == Replaceable(before, path)
    ensures InsecureAt(after, path) == InsecureAt(before, path)
  {
  }

  /** Opening directories before and closing them afterwards does not change what `set` did. */
  lemma SetEffectFrame(
    before: Fs, after: Fs, start: Fs, end: Fs, path: Path, value: Bytes, failures: set<Stage>, success: bool,
    more: set<Stage>)
    requires SetEffect(before, after, path, value, failures, success)
    requires failures <= more <= failures + {Early}
    requires SameFiles(start, before) && SameFiles(after, end) && end.open == start.open
    ensures SetEffect(start, end, path, value, more, success)
  {
    forall other: Path
      ensures Candidates(end, other) == Candidates(after, other) && Candidates(start, other) == Candidates(before, other)
      ensures Binding(end, other) == Binding(after, other) && Binding(start, other) == Binding(before, other)
    {
    }
  }

  lemma SetEffectOpen(before: Fs, after: Fs, path: Path, value: Bytes, failures: set<Stage>, success: bool)
    requires SetEffect(before, after, path, value, failures, success)
    ensures after.open == before.open
  {
  }

  lemma PublishedIsSet(before: Fs, after: Fs, path: Path, value: Bytes, failures: set<Stage>, success: bool)
    requires Published(before, after, path, value)
    requires Cleanup !in failures
    requires success <==> DirectorySync !in failures
    requires success ==> Candidates(after, path) == {Binding(after, path)}
    ensures SetEffect(before, after, path, value, failures, success)
  {
  }

  lemma StagedCloses(before: Fs, staged: Fs, temporary: Path, descriptor: int)
    requires before.nextInode in staged.nodes
    requires Staged(before, staged, temporary, Some(descriptor), staged.nodes[before.nextInode])
    ensures descriptor in staged.open
    ensures Staged(before, staged.(open := staged.open - {descriptor}), temporary, None, staged.nodes[before.nextInode])
  {
    assert staged.open - {descriptor} == before.open;
  }

  lemma StagedNode(before: Fs, staged: Fs, temporary: Path, descriptor: Option<int>, node: Node)
    requires Staged(before, staged, temporary, descriptor, node)
    ensures before.nextInode in staged.nodes && staged.nodes[before.nextInode] == node
  {
  }

  lemma StagedOpen(before: Fs, staged: Fs, temporary: Path, descriptor: int)
    requires before.nextInode in staged.nodes
    requires Staged(before, staged, temporary, Some(descriptor), staged.nodes[before.nextInode])
    ensures IsWritable(staged, descriptor) && staged.open[descriptor].inode == before.nextInode
  {
  }

  lemma StagedChmod(before: Fs, staged: Fs, after: Fs, temporary: Path, descriptor: int)
    requires before.nextInode in staged.nodes
    requires Staged(before, staged, temporary, Some(descriptor), staged.nodes[before.nextInode])
    requires var inode := before.nextInode;
             after == staged.(nodes := staged.nodes[inode := staged.nodes[inode].(meta := staged.nodes[inode].meta.(mode := SECRET_MODE))],
                              synced := staged.synced - {inode})
    ensures before.nextInode in after.nodes
    ensures Staged(before, after, temporary, Some(descriptor), after.nodes[before.nextInode])
    ensures after.nodes[before.nextInode] ==
            Node(staged.nodes[before.nextInode].meta.(mode := SECRET_MODE), staged.nodes[before.nextInode].content)
    ensures IsWritable(after, descriptor) && after.open[descriptor].inode == before.nextInode
  {
  }

  lemma StagedContent(before: Fs, staged: Fs, after: Fs, temporary: Path, descriptor: int)
    requires before.nextInode in staged.nodes
    requires Staged(before, staged, temporary, Some(descriptor), staged.nodes[before.nextInode])
    requires OnlyContent(staged, after, before.nextInode)
    ensures before.nextInode in after.nodes
    ensures Staged(before, after, temporary, Some(descriptor), after.nodes[before.nextInode])
    ensures after.nodes[before.nextInode].meta == staged.nodes[before.nextInode].meta
  {
  }

  lemma StagedSynced(before: Fs, staged: Fs, after: Fs, temporary: Path, descriptor: int)
    requires before.nextInode in staged.nodes
    requires Staged(before, staged, temporary, Some(descriptor), staged.nodes[before.nextInode])
    requires after == staged || after == staged.(synced := staged.synced + {before.nextInode})
    ensures Staged(before, after, temporary, Some(descriptor), staged.nodes[before.nextInode])
  {
  }

  lemma StagedShape(before: Fs, staged: Fs, temporary: Path)
    requires before.nextInode in staged.nodes
    requires Staged(before, staged, temporary, None, staged.nodes[before.nextInode])
    ensures temporary in staged.entries && staged.open == before.open
  {
  }

  /** Removing the temporary restores every name. */
  lemma StagedUnlinked(before: Fs, staged: Fs, temporary: Path, path: Path, value: Bytes, failures: set<Stage>)
    requires Consistent(before)
    requires before.nextInode in staged.nodes
    requires Staged(before, staged, temporary, None, staged.nodes[before.nextInode])
    requires Layout.IsCredentialName(path.name)
    requires DirectorySync !in failures && Cleanup !in failures
    ensures SetEffect(before, Rebind(staged, temporary, None), path, value, failures, false)
  {
    assert before.synced == before.synced - {before.nextInode};
    assert Rebind(staged, temporary, None).entries == before.entries;
  }

  /** Failing to remove it leaves just that one name behind. */
  lemma StagedStays(before: Fs, staged: Fs, temporary: Path, path: Path, value: Bytes, failures: set<Stage>)
    requires Consistent(before)
    requires before.nextInode in staged.nodes
    requires Staged(before, staged, temporary, None, staged.nodes[before.nextInode])
    requires Layout.IsCredentialName(path.name)
    requires DirectorySync !in failures && Cleanup in failures
    ensures SetEffect(before, staged, path, value, failures, false)
  {
    assert before.synced == before.synced - {before.nextInode};
  }

  /** What `delete` may do, told from the stages at which a call failed and from whether it reported success. */
  ghost predicate DeleteEffect(before: Fs, after: Fs, path: Path, failures: set<Stage>, success: bool) {
    && after.open == before.open
    && OthersKept(before, after, path)
    && after.nodes == before.nodes && after.directories == before.directories && after.uid == before.uid
    && (success ==> DirectorySync !in failures && Candidates(after, path) == {None})
    && (success || DirectorySync in failures ==>
          && SecureAt(before, path)
          && after.entries == before.entries - {path}
          && Candidates(after, path) <= Candidates(before, path) + {None})
    && (!success && DirectorySync !in failures ==>
          after.entries == before.entries && Candidates(after, path) == Candidates(before, path))
  }

  lemma NothingDeletedFrame(before: Fs, after: Fs, path: Path, failures: set<Stage>)
    requires OnlyDescriptors(before, after) && after.open == before.open
    requires DirectorySync !in failures
    ensures DeleteEffect(before, after, path, failures, false)
  {
    forall other: Path
      ensures Candidates(after, other) == Candidates(before, other) && Binding(after, other) == Binding(before, other)
    {
    }
  }

  lemma UnlinkDeletes(
    before: Fs, closed: Fs, unlinked: Fs, after: Fs, path: Path, failures: set<Stage>, problem: Option<Error>)
    requires Consistent(before) && SecureAt(before, path)
    requires OnlyDescriptors(before, closed) && closed.open == before.open
    requires unlinked == Rebind(closed, path, None)
    requires after == unlinked.(candidates := after.candidates)
    requires problem.Some? ==> after == unlinked && DirectorySync in failures
    requires problem.None? ==> DirectorySync !in failures && forall p: Path ::
      Candidates(after, p) == if p.service == path.service then {Binding(unlinked, p)} else Candidates(unlinked, p)
    ensures DeleteEffect(before, after, path, failures, problem.None?)
  {
    assert after.entries == before.entries - {path};
    forall other: Path | other != path
      ensures Binding(after, other) == Binding(before, other) && Candidates(after, other) <= Candidates(before, other)
    {
      assert Binding(before, other) in Candidates(before, other);
      assert Candidates(unlinked, other) == Candidates(before, other);
    }
    assert Candidates(closed, path) == Candidates(before, path);
    assert Binding(unlinked, path) == None;
    assert Candidates(unlinked, path) <= Candidates(before, path) + {None};
  }

  lemma DeleteEffectOpen(before: Fs, after: Fs, path: Path, failures: set<Stage>, success: bool)
    requires DeleteEffect(before, after, path, failures, success)
    ensures after.open == before.open
  {
  }

  lemma DeleteEffectFrame(
    before: Fs, after: Fs, start: Fs, end: Fs, path: Path, failures: set<Stage>, success: bool, more: set<Stage>)
    requires DeleteEffect(before, after, path, failures, success)
    requires failures <= more <= failures + {Early}
    requires OnlyDescriptors(start, before) && OnlyDescriptors(after, end) && end.open == start.open
    ensures DeleteEffect(start, end, path, more, success)
  {
    forall other: Path
      ensures Candidates(end, other) == Candidates(after, other) && Candidates(start, other) == Candidates(before, other)
      ensures Binding(end, other) == Binding(after, other) && Binding(start, other) == Binding(before, other)
    {
    }
  }

  lemma RenamePublishes(before: Fs, staged: Fs, temporary: Path, path: Path, value: Bytes)
    requires Consistent(before)
    requires Staged(before, staged, temporary, None, Node(Meta(Regular, before.uid, SECRET_MODE), value))
    requires before.nextInode in staged.synced
    requires Layout.IsCredentialName(path.name)
    ensures Published(before, RenameEntry(staged, temporary, path, None).0, path, value)
  {
    var after := RenameEntry(staged, temporary, path, None).0;
    var inode := before.nextInode;
    assert inode !in before.nodes && inode !in before.synced;
    assert before.synced == before.synced - {inode};
    assert after.entries == before.entries[path := inode];
    forall other: Path | other != path && other != temporary
      ensures Binding(after, other) == Binding(before, other) && Candidates(after, other) == Candidates(before, other)
    {
    }
    assert Binding(staged, path) == Binding(before, path);
    assert Candidates(staged, path) == Candidates(before, path);
  }

  lemma PublishedOpen(before: Fs, after: Fs, path: Path, value: Bytes)
    requires Published(before, after, path, value)
    ensures after.open == before.open
  {
  }

  lemma SyncPublishes(before: Fs, published: Fs, after: Fs, path: Path, value: Bytes, problem: Option<Error>)
    requires Consistent(before)
    requires Published(before, published, path, value)
    requires after == published.(candidates := after.candidates)
    requires problem.Some? ==> after == published
    requires problem.None? ==> forall p: Path ::
      Candidates(after, p) == if p.service == path.service then {Binding(published, p)} else Candidates(published, p)
    ensures Published(before, after, path, value)
    ensures problem.None? ==> Candidates(after, path) == {Binding(after, path)}
  {
    if problem.None? {
      assert Candidates(after, path) == {Binding(published, path)};
      forall other: Path | other != path && Layout.IsCredentialName(other.name)
        ensures Binding(after, other) == Binding(before, other) && Candidates(after, other) <= Candidates(before, other)
      {
        assert Binding(before, other) in Candidates(before, other);
      }
    }
  }

  lemma ContentUnchanged(fs: Fs, inode: Inode)
    requires inode in fs.nodes
    ensures OnlyContent(fs, fs, inode)
  {
  }

  lemma ContentExtended(start: Fs, before: Fs, after: Fs, inode: Inode)
    requires OnlyContent(start, before, inode)
    requires inode in after.nodes
    requires after == before.(nodes := before.nodes[inode := before.nodes[inode].(content := after.nodes[inode].content)],
                              synced := before.synced - {inode})
    ensures OnlyContent(start, after, inode)
  {
  }

  lemma TemporaryUnused(fs: Fs, service: string, random: Bytes)
    ensures !Layout.IsCredentialName(Layout.TemporaryName(random))
    ensures NoTemporaries(fs, service) ==> Path(service, Layout.TemporaryName(random)) !in fs.entries
  {
    assert Layout.TemporaryName(random)[0] == '.';
  }

  lemma CreateStages(before: Fs, after: Fs, path: Path, descriptor: int)
    requires path !in before.entries && descriptor !in before.open && !Layout.IsCredentialName(path.name)
    requires (after, Opened(descriptor)) == CreateNew(before, path, None)
    ensures Staged(before, after, path, Some(descriptor), Node(Meta(Regular, before.uid, before.createMode), []))
  {
  }

  lemma EntryExists(fs: Fs, path: Path)
    requires Consistent(fs)
    ensures path in fs.entries ==> fs.entries[path] in fs.nodes && ServiceExists(fs, path.service)
  {
  }

  /** The mount check was the call that failed, and its error matches `InsecureFallback`. */
  ghost predicate MountRefused(script: seq<Disturbance>, err: Error) {
    Upcoming(script).error == Some(err) && IsCategory(err, InsecureFallback)
  }

  /** Such an error is reported as not found only if the file or directory was really missing. */
  ghost predicate FailsForMissing(err: Error, present: bool) {
    NotMisleading(err) && (Is(err, Std(NotExist)) ==> !present && !IsCategory(err, InsecureFallback))
  }

  /**
   What a not-found answer says of an operation met honestly: the name is absent, unless the answer
   also matches `InsecureFallback`. Then the mount check was refused and its error is the answer.
   */
  ghost predicate NotFoundExplained(before: Fs, path: Path, script: seq<Disturbance>, reply: Reply) {
    reply.Rejected? && IsCategory(reply.error, NotFound) ==>
      if IsCategory(reply.error, InsecureFallback) then
        Upcoming(script).error.Some? && reply.error == OperationError(true, Upcoming(script).error.value)
      else
        path !in before.entries
  }

  /** The two ways in which opening the service directory can fail under an honest system. */
  lemma FailureExplained(before: Fs, path: Path, script: seq<Disturbance>, err: Error, present: bool)
    requires MountRefused(script, err) || FailsForMissing(err, present)
    requires path in before.entries ==> present
    ensures NotFoundExplained(before, path, script, Rejected(OperationError(true, err)))
  {
    hide Is;
    NotFoundExactly(true, err);
    if MountRefused(script, err) {
      OperationErrorKeepsCause(true, err, Portable(InsecureFallback));
    } else {
      MissingIsOnlyNotFound(err, present);
    }
  }

  /** A missing file reported as not found is reported as nothing else. */
  lemma MissingIsOnlyNotFound(err: Error, present: bool)
    requires FailsForMissing(err, present)
    ensures IsCategory(OperationError(true, err), NotFound) ==>
              !present && !IsCategory(OperationError(true, err), InsecureFallback)
  {
    hide Is;
    NotFoundExactly(true, err);
    TagIs(NotFound, err, InsecureFallback);
  }

  /** When the service directory can be opened, and when failing to says that a directory is missing. */
  ghost predicate ServiceVerdict(fs: Fs, service: string, script: seq<Disturbance>, result: Result<int, Error>) {
    && (result.Success? ==> DirectoriesReady(fs, service))
    && (AllHonest(script) && result.Failure? ==> NotMisleading(result.error))
    && (AllHonest(script) && result.Failure? && Is(result.error, Std(NotExist)) ==>
          !ServiceExists(fs, service) && !IsCategory(result.error, InsecureFallback))
    && (AllHarmless(script) && DirectoriesReady(fs, service) ==> result.Success?)
    && (AllHarmless(script) && DirectoriesAcceptable(fs, service) && result.Failure? ==>
          Is(result.error, Std(NotExist)))
  }

  ghost predicate BelowAcceptable(fs: Fs, service: string) {
    && (Version in fs.directories ==> SecureDirectory(fs, Version))
    && (Service(service) in fs.directories ==> SecureDirectory(fs, Service(service)))
  }

  /** The same of the two directories below an open root. */
  ghost predicate BelowVerdict(fs: Fs, service: string, script: seq<Disturbance>, result: Result<int, Error>) {
    && (result.Success? ==> SecureDirectory(fs, Version) && SecureDirectory(fs, Service(service)))
    && (AllHonest(script) && result.Failure? ==> NotMisleading(result.error))
    && (AllHonest(script) && result.Failure? && Is(result.error, Std(NotExist)) ==>
          && (Version !in fs.directories || Service(service) !in fs.directories)
          && !IsCategory(result.error, InsecureFallback))
    && (AllHarmless(script) && SecureDirectory(fs, Version) && SecureDirectory(fs, Service(service)) ==> result.Success?)
    && (AllHarmless(script) && BelowAcceptable(fs, service) && result.Failure? ==> Is(result.error, Std(NotExist)))
  }

  lemma RootOpened(before: Fs, after: Fs, root: Result<int, Error>, service: string)
    requires DescriptorAdded(before, after, DirectoryHandle(Root), root)
    ensures root.Failure? ==> DescriptorAdded(before, after, DirectoryHandle(Service(service)), root)
    ensures root.Success? ==> IsDirectory(after, root.value, Root)
  {
  }

  /** Once the root descriptor is closed again, only the service directory's is left. */
  lemma BelowOpened(
    before: Fs, inRoot: Fs, after: Fs, root: Result<int, Error>, result: Result<int, Error>, service: string)
    requires root.Success? && DescriptorAdded(before, inRoot, DirectoryHandle(Root), root)
    requires DescriptorAdded(inRoot, after, DirectoryHandle(Service(service)), result)
    ensures root.value in after.open
    ensures DescriptorAdded(before, after.(open := after.open - {root.value}), DirectoryHandle(Service(service)), result)
  {
  }

  lemma VersionOpened(before: Fs, after: Fs, version: Result<int, Error>, service: string)
    requires DescriptorAdded(before, after, DirectoryHandle(Version), version)
    ensures version.Failure? ==> DescriptorAdded(before, after, DirectoryHandle(Service(service)), version)
    ensures version.Success? ==> IsDirectory(after, version.value, Version)
  {
  }

  lemma ServiceOpened(
    before: Fs, inVersion: Fs, after: Fs, version: Result<int, Error>, result: Result<int, Error>, service: string)
    requires version.Success? && DescriptorAdded(before, inVersion, DirectoryHandle(Version), version)
    requires DescriptorAdded(inVersion, after, DirectoryHandle(Service(service)), result)
    ensures version.value in after.open
    ensures DescriptorAdded(
              before, after.(open := after.open - {version.value}), DirectoryHandle(Service(service)), result)
  {
  }

  lemma VersionFails(fs: Fs, service: string, script: seq<Disturbance>, version: Result<int, Error>)
    requires DirectoryVerdict(fs, Version, script, version) && version.Failure?
    ensures BelowVerdict(fs, service, script, version)
  {
    hide Is, AllHarmless, AllHonest, NotMisleading;
  }

  lemma VerdictsCombine(
    fs: Fs, inVersion: Fs, service: string, first: seq<Disturbance>, second: seq<Disturbance>,
    version: Result<int, Error>, result: Result<int, Error>)
    requires DescriptorAdded(fs, inVersion, DirectoryHandle(Version), version) && ScriptKept(first, second)
    requires version.Success? && DirectoryVerdict(fs, Version, first, version)
    requires DirectoryVerdict(inVersion, Service(service), second, result)
    ensures BelowVerdict(fs, service, first, result)
  {
    hide Is, AllHarmless, AllHonest, NotMisleading;
  }

  lemma RootFails(fs: Fs, service: string, script: seq<Disturbance>, root: Result<int, Error>)
    requires DirectoryVerdict(fs, Root, script, root) && root.Failure?
    ensures ServiceVerdict(fs, service, script, root)
  {
    hide Is, AllHarmless, AllHonest, NotMisleading;
  }

  lemma RootCombines(
    fs: Fs, inRoot: Fs, service: string, first: seq<Disturbance>, second: seq<Disturbance>,
    root: Result<int, Error>, result: Result<int, Error>)
    requires DescriptorAdded(fs, inRoot, DirectoryHandle(Root), root) && ScriptKept(first, second)
    requires root.Success? && DirectoryVerdict(fs, Root, first, root)
    requires BelowVerdict(inRoot, service, second, result)
    ensures ServiceVerdict(fs, service, first, result)
  {
    hide Is, AllHarmless, AllHonest, NotMisleading;
  }

  lemma ExplainedEarlier(first: seq<Disturbance>, script: seq<Disturbance>, problem: Option<Error>)
    requires ScriptKept(first, script)
    requires Explained(script, problem)
    ensures Explained(first, problem)
  {
  }

  lemma ExplainedNothing(script: seq<Disturbance>)
    ensures Explained(script, None)
  {
  }

  /** Reading and closing never make a present credential look missing. */
  lemma ReadingNotMissing(contents: Bytes, readProblem: Option<Error>, closeProblem: Option<Error>)
    ensures var reply := AfterReading(contents, readProblem, closeProblem);
            && !reply.Stored?
            && ((readProblem.Some? ==> Plain(readProblem.value)) && (closeProblem.Some? ==> Plain(closeProblem.value)) ==>
                  reply.Rejected? ==> !IsCategory(reply.error, NotFound))
  {
    if readProblem.Some? {
      NotFoundExactly(true, JoinOptional(readProblem.value, closeProblem));
    } else if closeProblem.Some? {
      NotFoundExactly(true, One(0, closeProblem.value));
    }
  }

  /** What Get and Delete answer between opening and closing the service directory. */
  ghost predicate InsideVerdict(before: Fs, path: Path, script: seq<Disturbance>, reply: Reply) {
    && (AllHonest(script) && reply.Rejected? && IsCategory(reply.error, NotFound) ==>
          path !in before.entries && !IsCategory(reply.error, InsecureFallback))
    && (AllHarmless(script) && path !in before.entries ==> reply.Rejected? && IsCategory(reply.error, NotFound))
    && (AllHarmless(script) && SecureAt(before, path) ==> !reply.Rejected?)
    && (AllHarmless(script) && InsecureAt(before, path) ==> reply.Rejected? && Exactly(reply.error, InsecureFallback))
  }

  lemma FileIsBound(before: Fs, path: Path, script: seq<Disturbance>, file: Result<int, Error>)
    requires FileVerdict(before, path, script, file) && file.Success?
    ensures path in before.entries
  {
  }

  lemma MissingCredential(before: Fs, path: Path, script: seq<Disturbance>, file: Result<int, Error>)
    requires Consistent(before) && FileVerdict(before, path, script, file) && file.Failure?
    ensures CredentialVerdict(before, path, script, file)
  {
    hide Is, AllHarmless, AllHonest, NotMisleading, Consistent, SecureMeta;
    EntryExists(before, path);
    assert SecureAt(before, path) ==> RegularAt(before, path) by {
      SecureIsRegular(before, path);
    }
  }

  lemma SecureIsRegular(fs: Fs, path: Path)
    ensures SecureAt(fs, path) ==> RegularAt(fs, path)
  {
  }

  /** What fstat reports of the open file decides. */
  lemma InspectedCredential(
    before: Fs, path: Path, script: seq<Disturbance>, later: seq<Disturbance>,
    file: Result<int, Error>, status: Result<(Meta, Inode), Error>)
    requires Consistent(before) && FileVerdict(before, path, script, file) && file.Success?
    requires ScriptKept(script, later)
    requires path in before.entries && before.entries[path] in before.nodes
    requires AllHarmless(later) ==> status.Success?
    requires AllHonest(later) && status.Failure? ==> Plain(status.error)
    requires status.Success? ==> status.value.0 == before.nodes[before.entries[path]].meta
    ensures var problem :=
              if status.Failure? then Some(status.error) else CredentialProblem(status.value.0, before.uid);
            CredentialVerdict(before, path, script, if problem.Some? then Failure(problem.value) else file)
  {
    InspectionDecides(before, path);
    hide Is, AllHarmless, AllHonest, Consistent, SecureMeta, Private;
    InsecureIsPlain();
  }

  lemma InspectionDecides(fs: Fs, path: Path)
    requires path in fs.entries && fs.entries[path] in fs.nodes
    ensures InsecureAt(fs, path) <==> !SecureAt(fs, path)
    ensures InsecureAt(fs, path) ==>
      CredentialProblem(fs.nodes[fs.entries[path]].meta, fs.uid) == Some(Errors.Fault(InsecureFallback))
  {
  }

  lemma InsecureIsNotMissing(err: Error)
    requires SaysInsecure(err)
    ensures !Is(err, Std(NotExist))
  {
  }

  lemma NotOpenedVerdict(before: Fs, path: Path, script: seq<Disturbance>, err: Error)
    requires CredentialVerdict(before, path, script, Failure(err))
    ensures InsideVerdict(before, path, script, Rejected(OperationError(true, err)))
  {
    hide SaysInsecure, InsecureAt, Exactly;
    if SaysInsecure(err) {
      InsecureRejected(true, err);
    }
    hide Is, AllHarmless, AllHonest, NotMisleading, SecureAt;
    NotFoundExactly(true, err);
    if AllHonest(script) {
      MissingIsOnlyNotFound(err, path in before.entries);
    }
  }

  lemma SecureIsBound(fs: Fs, path: Path)
    requires SecureAt(fs, path)
    ensures path in fs.entries
  {
  }

  lemma CredentialIsSecure(before: Fs, path: Path, script: seq<Disturbance>, descriptor: int)
    requires CredentialVerdict(before, path, script, Success(descriptor))
    ensures SecureAt(before, path)
  {
  }

  /** Once the credential is open, only a fault can fail, and no honest one is mistaken for a missing file. */
  lemma OpenedVerdict(before: Fs, path: Path, script: seq<Disturbance>, descriptor: int, reply: Reply)
    requires CredentialVerdict(before, path, script, Success(descriptor))
    requires AllHarmless(script) ==> !reply.Rejected?
    requires AllHonest(script) && reply.Rejected? ==> !IsCategory(reply.error, NotFound)
    ensures InsideVerdict(before, path, script, reply)
  {
    hide Is, AllHarmless, AllHonest;
  }

  lemma NotEntered(before: Fs, path: Path, script: seq<Disturbance>, err: Error, present: bool)
    requires HonestRun(script) ==> MountRefused(script, err) || FailsForMissing(err, present)
    requires path in before.entries ==> present
    ensures HonestRun(script) ==> NotFoundExplained(before, path, script, Rejected(OperationError(true, err)))
    ensures Is(err, Std(NotExist)) ==> IsCategory(OperationError(true, err), NotFound)
  {
    hide Is, HonestRun, MountRefused, FailsForMissing, NotFoundExplained;
    NotFoundExactly(true, err);
    if HonestRun(script) {
      FailureExplained(before, path, script, err, present);
    }
  }

  lemma InsecureRejected(missing: bool, err: Error)
    requires SaysInsecure(err)
    ensures Exactly(OperationError(missing, err), InsecureFallback)
  {
    hide OperationError, Is;
    InsecureAnswered(missing);
    NumberAnswered(missing, ELOOP);
  }

  /** What is answered inside is answered by the whole operation. */
  lemma InsideExplained(
    before: Fs, entered: Fs, path: Path, first: seq<Disturbance>, script: seq<Disturbance>, reply: Reply)
    requires InsideVerdict(entered, path, script, reply)
    requires SameFiles(before, entered) && ScriptKept(first, script)
    requires HonestRun(first) ==> AllHonest(script)
    ensures HonestRun(first) ==> NotFoundExplained(before, path, first, reply)
    ensures AllHarmless(first) && path !in before.entries ==> reply.Rejected? && IsCategory(reply.error, NotFound)
    ensures AllHarmless(first) && SecureAt(before, path) ==> !reply.Rejected?
    ensures AllHarmless(first) && InsecureAt(before, path) ==> reply.Rejected? && Exactly(reply.error, InsecureFallback)
  {
    hide Is, AllHarmless, AllHonest, HonestRun, OperationError;
  }

  lemma UnlinkedVerdict(problem: Option<Error>, script: seq<Disturbance>)
    requires Explained(script, problem)
    ensures AllHarmless(script) ==> problem.None?
    ensures AllHonest(script) && problem.Some? ==> !IsCategory(OperationError(true, problem.value), NotFound)
  {
    hide Is, AllHarmless, AllHonest;
    if problem.Some? {
      NotFoundExactly(true, problem.value);
    }
  }

  lemma ReadVerdict(
    script: seq<Disturbance>, later: seq<Disturbance>,
    contents: Bytes, readProblem: Option<Error>, closeProblem: Option<Error>)
    requires ScriptKept(script, later)
    requires Explained(script, readProblem) && Explained(later, closeProblem)
    ensures var reply := AfterReading(contents, readProblem, closeProblem);
            && !reply.Stored?
            && (AllHarmless(script) ==> !reply.Rejected?)
            && (AllHonest(script) && reply.Rejected? ==> !IsCategory(reply.error, NotFound))
  {
    hide Is, AllHarmless, AllHonest, OperationError, Plain;
    ReadingNotMissing(contents, readProblem, closeProblem);
  }

  /** Where the deferred cleanup of `writeAtomic` goes, whatever its calls report. */
  lemma CleanupSteps(op: Op, directory: int, temporary: string, descriptor: int, reason: Error)
    ensures var point := AtCleanupClose(directory, temporary, descriptor, reason);
            && Closing(point, descriptor)
            && forall problem :: AfterClose(op, point, problem) ==
                                 AtCleanupUnlink(directory, temporary, JoinOptional(reason, problem))
    ensures var point := AtCleanupUnlink(directory, temporary, reason);
            && Unlinking(op, point, directory, temporary) && StageOf(point) == Cleanup
            && forall problem :: AfterUnlink(op, point, problem) ==
                                 AtCloseDirectory(directory, Reject(op, AfterCleanup(reason, problem)))
  {
  }

  /** Whatever closing the service directory reports, the answer stands. */
  lemma ClosingSteps(op: Op, directory: int, reply: Reply)
    ensures Closing(AtCloseDirectory(directory, reply), directory)
    ensures forall problem :: AfterClose(op, AtCloseDirectory(directory, reply), problem) == Finished(reply)
  {
  }

  class LinuxStorage {
    const system: System
    const service: string

    constructor (system: System, service: string)
      ensures this.system == system && this.service == service
    {
      this.system, this.service := system, service;
    }

    /** The version and the service directory in turn, below an open root; the first is closed again on every path. */
    method OpenBelow(root: int) returns (result: Result<int, Error>)
      requires system.Valid()
      requires system.point == AtVersion(root) && system.op.service == service
      requires IsDirectory(system.fs, root, Root)
      modifies system
      ensures system.Valid()
      ensures system.op == old(system.op) && system.point == AtCloseRoot(root, result)
      ensures DescriptorAdded(old(system.fs), system.fs, DirectoryHandle(Service(service)), result)
      ensures system.failures <= old(system.failures) + {Early}
      ensures ScriptKept(old(system.script), system.script)
      ensures BelowVerdict(old(system.fs), service, old(system.script), result)
    {
      hide Consistent, Accounted, Is, OperationError, AllHarmless, AllHonest, BelowVerdict, DirectoryVerdict, DescriptorAdded,
           NotMisleading, Reject, SecureMeta, SecureDirectory, Explained;
      ghost var before, script := system.fs, system.script;
      var version := system.OpenVersionDirectory(root);
      VersionOpened(before, system.fs, version, service);
      if version.Failure? {
        VersionFails(before, service, script, version);
        return version;
      }
      ghost var inVersion, inner := system.fs, system.script;
      result := system.OpenServiceDirectory(root, version.value, service);
      ServiceOpened(before, inVersion, system.fs, version, result, service);
      VerdictsCombine(before, inVersion, service, script, inner, version, result);
      var _ := system.Close(version.value);
    }

    /** Root, version and service directory in turn; the first two are closed again on every path. */
    method OpenDirectories() returns (result: Result<int, Error>)
      requires system.Valid()
      requires system.point == AtRoot && system.op.service == service
      modifies system
      ensures system.Valid()
      ensures system.op == old(system.op) && system.point == AfterService(system.op, result)
      ensures DescriptorAdded(old(system.fs), system.fs, DirectoryHandle(Service(service)), result)
      ensures system.failures <= old(system.failures) + {Early}
      ensures ScriptKept(old(system.script), system.script)
      ensures ServiceVerdict(old(system.fs), service, old(system.script), result)
    {
      hide Consistent, Accounted, Is, OperationError, AllHarmless, AllHonest, ServiceVerdict, BelowVerdict, DirectoryVerdict,
           DescriptorAdded, NotMisleading, Reject, SecureMeta, SecureDirectory, Explained;
      ghost var before, script := system.fs, system.script;
      var root := system.OpenRootDirectory();
      RootOpened(before, system.fs, root, service);
      if root.Failure? {
        RootFails(before, service, script, root);
        return root;
      }
      ghost var inRoot, inner := system.fs, system.script;
      result := OpenBelow(root.value);
      BelowOpened(before, inRoot, system.fs, root, result, service);
      RootCombines(before, inRoot, service, script, inner, root, result);
      var _ := system.Close(root.value);
    }

    method OpenServiceDirectory(create: bool) returns (result: Result<int, Error>)
      requires system.Valid()
      requires system.point == AtMount
      requires system.op.service == service && create == system.op.Set?
      modifies system
      ensures system.Valid()
      ensures system.op == old(system.op) && system.point == AfterService(system.op, result)
      ensures SameFiles(old(system.fs), system.fs)
      ensures create || system.fs.directories == old(system.fs).directories
      ensures match result
              case Success(directory) =>
                && directory !in old(system.fs).open
                && system.fs.open == old(system.fs).open[directory := DirectoryHandle(Service(service))]
              case Failure(_) => system.fs.open == old(system.fs).open
      ensures system.failures <= old(system.failures) + {Early}
      ensures ScriptKept(old(system.script), system.script)
      ensures HonestRun(old(system.script)) && result.Success? ==> AllHonest(system.script)
      ensures HonestRun(old(system.script)) && result.Failure? ==>
        || MountRefused(old(system.script), result.error)
        || FailsForMissing(result.error, ServiceExists(system.fs, service))
      ensures Upcoming(old(system.script)).error.Some? ==>
        result == Failure(Upcoming(old(system.script)).error.value)
      ensures AllHarmless(old(system.script)) && DirectoriesReady(old(system.fs), service) ==> result.Success?
      ensures AllHarmless(old(system.script)) && DirectoriesAcceptable(old(system.fs), service) ==>
        if create then
          result.Success? && DirectoriesReady(system.fs, service)
        else
          result.Success? || Is(result.error, Std(NotExist))
    {
      hide Consistent, Accounted, Is, OperationError, AllHarmless, AllHonest, SecureMeta;
      var problem := system.ValidateMount();
      if problem.Some? {
        return Failure(problem.value);
      }
      if create {
        problem := system.PrepareDirectories(service);
        if problem.Some? {
          return Failure(problem.value);
        }
      }
      result := OpenDirectories();
    }

    method OpenCredential(directory: int, name: string) returns (result: Result<int, Error>)
      requires system.Valid()
      requires system.point == AtOpen(directory) && name == Name(system.op)
      requires IsDirectory(system.fs, directory, Service(system.op.service))
      modifies system
      ensures system.Valid()
      ensures system.op == old(system.op)
      ensures OnlyDescriptors(old(system.fs), system.fs)
      ensures CredentialVerdict(old(system.fs), PathFor(system.op), old(system.script), result)
      ensures system.failures <= old(system.failures) + {Early}
      ensures ScriptKept(old(system.script), system.script)
      ensures match result
              case Success(descriptor) =>
                var inode := old(system.fs).entries[PathFor(system.op)];
                && DescriptorAdded(old(system.fs), system.fs, FileHandle(inode, false, 0), result)
                && system.point == AfterOpen(system.op, directory, descriptor, inode)
              case Failure(err) =>
                system.fs.open == old(system.fs).open && system.point == AfterOpenFailure(system.op, directory, err)
    {
      hide Consistent, Accounted, Is, OperationError, AllHarmless, AllHonest, CredentialVerdict, FileVerdict, Plain, NotMisleading,
           SecureMeta, AfterOpenFailure, AfterOpen;
      ghost var before, script := system.fs, system.script;
      EntryExists(before, PathFor(system.op));
      var file := system.OpenCredentialFile(directory, name);
      if file.Failure? {
        MissingCredential(before, PathFor(system.op), script, file);
        return file;
      }
      FileIsBound(before, PathFor(system.op), script, file);
      ghost var inspecting := system.script;
      var status := system.Fstat(directory, file.value);
      var problem := if status.Failure? then Some(status.error) else CredentialProblem(status.value.0, system.fs.uid);
      InspectedCredential(before, PathFor(system.op), script, inspecting, file, status);
      if problem.Some? {
        var _ := system.Close(file.value);
        return Failure(problem.value);
      }
      return file;
    }

    /** `io.ReadAll` over `descriptorReader`: the whole file, however it is cut into reads. */
    method ReadAll(ghost directory: int, descriptor: int) returns (contents: Bytes, problem: Option<Error>)
      requires system.Valid()
      requires system.point == AtRead(directory, descriptor, [])
      requires IsFile(system.fs, descriptor)
      requires !system.fs.open[descriptor].writable && system.fs.open[descriptor].offset == 0
      modifies system
      ensures system.Valid()
      ensures system.op == old(system.op)
      ensures system.point == AtCloseRead(directory, descriptor, contents, problem)
      ensures OnlyDescriptors(old(system.fs), system.fs)
      ensures descriptor in system.fs.open
      ensures system.fs.open - {descriptor} == old(system.fs).open - {descriptor}
      ensures system.failures <= old(system.failures) + {Early}
      ensures ScriptKept(old(system.script), system.script)
      ensures problem.None? ==> contents == old(system.fs).nodes[old(system.fs).open[descriptor].inode].content
      ensures Explained(old(system.script), problem)
    {
      hide Consistent, Accounted, Is, OperationError, AllHarmless, AllHonest;
      ghost var inode := system.fs.open[descriptor].inode;
      ghost var content := system.fs.nodes[inode].content;
      contents, problem := [], None;
      var done := false;
      while !done
        invariant system.Valid()
        invariant system.op == old(system.op)
        invariant OnlyDescriptors(old(system.fs), system.fs)
        invariant descriptor in system.fs.open
        invariant system.fs.open == old(system.fs).open[descriptor := FileHandle(inode, false, |contents|)]
        invariant contents <= content
        invariant system.point == if done then
                                    AtCloseRead(directory, descriptor, contents, problem)
                                  else
                                    AtRead(directory, descriptor, contents)
        invariant system.failures <= old(system.failures) + {Early}
        invariant ScriptKept(old(system.script), system.script)
        invariant done && problem.None? ==> contents == content
        invariant problem.Some? ==> done && Explained(old(system.script), problem)
        decreases if done then 0 else 1 + |content| - |contents|
      {
        ghost var before := system.script;
        var data, failure := system.Read(directory, descriptor, contents);
        contents, problem := contents + data, failure;
        done := problem.Some? || data == [];
        ExplainedEarlier(old(system.script), before, problem);
      }
      ExplainedNothing(old(system.script));
    }

    /** The part of `get` between opening and closing the service directory. */
    method GetIn(directory: int, name: string) returns (reply: Reply)
      requires system.Valid()
      requires system.point == AtOpen(directory) && name == Name(system.op) && system.op.Get?
      requires IsDirectory(system.fs, directory, Service(system.op.service))
      modifies system
      ensures system.Valid()
      ensures system.op == old(system.op) && system.point == AtCloseDirectory(directory, reply)
      ensures OnlyDescriptors(old(system.fs), system.fs) && system.fs.open == old(system.fs).open
      ensures ScriptKept(old(system.script), system.script)
      ensures !reply.Stored?
      ensures reply.Value? ==>
        SecureAt(old(system.fs), PathFor(system.op)) && reply.contents == ContentAt(old(system.fs), PathFor(system.op))
      ensures InsideVerdict(old(system.fs), PathFor(system.op), old(system.script), reply)
    {
      hide Consistent, Accounted, Is, OperationError, AllHarmless, AllHonest, Plain, CredentialVerdict, InsideVerdict, Explained,
           SecureAt;
      ghost var before, script := system.fs, system.script;
      EntryExists(before, PathFor(system.op));
      var credential := OpenCredential(directory, name);
      if credential.Failure? {
        NotOpenedVerdict(before, PathFor(system.op), script, credential.error);
        return Rejected(OperationError(true, credential.error));
      }
      CredentialIsSecure(before, PathFor(system.op), script, credential.value);
      ghost var reading := system.script;
      var contents, readProblem := ReadAll(directory, credential.value);
      ghost var closing := system.script;
      var closeProblem := system.Close(credential.value);
      ReadVerdict(reading, closing, contents, readProblem, closeProblem);
      reply := AfterReading(contents, readProblem, closeProblem);
      OpenedVerdict(before, PathFor(system.op), script, credential.value, reply);
    }

    method Get(name: string) returns (reply: Reply)
      requires system.Valid()
      requires system.point == AtMount && system.failures == {} && system.history == []
      requires system.op.Get? && system.op.service == service && name == Name(system.op)
      modifies system
      ensures system.Valid()
      ensures system.op == old(system.op) && system.point == Finished(reply)
      ensures OnlyDescriptors(old(system.fs), system.fs) && system.fs.open == old(system.fs).open
      ensures ScriptKept(old(system.script), system.script)
      ensures !reply.Stored?
      ensures reply.Value? ==>
        SecureAt(old(system.fs), PathFor(system.op)) && reply.contents == ContentAt(old(system.fs), PathFor(system.op))
      ensures HonestRun(old(system.script)) ==>
        NotFoundExplained(old(system.fs), PathFor(system.op), old(system.script), reply)
      ensures Upcoming(old(system.script)).error.Some? ==>
        reply == Rejected(OperationError(true, Upcoming(old(system.script)).error.value))
      ensures AllHarmless(old(system.script)) && DirectoriesAcceptable(old(system.fs), service) && PathFor(system.op) !in old(system.fs).entries ==>
        reply.Rejected? && IsCategory(reply.error, NotFound)
      ensures AllHarmless(old(system.script)) && DirectoriesReady(old(system.fs), service) && SecureAt(old(system.fs), PathFor(system.op)) ==>
        reply.Value?
      ensures AllHarmless(old(system.script)) && DirectoriesReady(old(system.fs), service) && InsecureAt(old(system.fs), PathFor(system.op)) ==>
        reply.Rejected? && Exactly(reply.error, InsecureFallback)
      ensures Settled(system.op, system.history, reply)
    {
      hide Consistent, Accounted, Is, OperationError, AllHarmless, AllHonest, HonestRun, SecureMeta, SecureDirectory, DirectoriesKept,
           DirectoriesReady, DirectoriesAcceptable, MountRefused, FailsForMissing, NotFoundExplained, InsideVerdict,
           Closing, AfterClose, Explained, Settled, Exactly, InsecureAt, Next;
      ghost var before, script := system.fs, system.script;
      EntryExists(before, PathFor(system.op));
      var directory := OpenServiceDirectory(false);
      if directory.Failure? {
        NotEntered(before, PathFor(system.op), script, directory.error, ServiceExists(system.fs, service));
        reply := Rejected(OperationError(true, directory.error));
        FinishedIsSettled(system.op, system.history, reply);
        return;
      }
      ghost var entered, inside := system.fs, system.script;
      reply := GetIn(directory.value, name);
      InsideExplained(before, entered, PathFor(system.op), script, inside, reply);
      ClosingSteps(system.op, directory.value, reply);
      var _ := system.Close(directory.value);
      FinishedIsSettled(system.op, system.history, reply);
    }

    method CreateTemporary(directory: int) returns (result: Result<(string, int), Error>)
      requires system.Valid()
      requires system.point.AtRandom? && system.point.directory == directory && system.point.attempt == 0
      requires IsDirectory(system.fs, directory, Service(system.op.service))
      modifies system
      ensures system.Valid()
      ensures system.op == old(system.op)
      ensures system.failures <= old(system.failures) + {Early}
      ensures ScriptKept(old(system.script), system.script)
      ensures match result
              case Success((temporary, descriptor)) =>
                && system.point == AtChmod(directory, old(system.point).seen, temporary, descriptor)
                && Staged(old(system.fs), system.fs, Path(system.op.service, temporary), Some(descriptor),
                          Node(Meta(Regular, old(system.fs).uid, old(system.fs).createMode), []))
              case Failure(err) =>
                system.fs == old(system.fs) && system.point == AtCloseDirectory(directory, Reject(system.op, err))
      ensures AllHarmless(old(system.script)) && NoTemporaries(old(system.fs), system.op.service) ==> result.Success?
    {
      hide Consistent, Accounted, Is, OperationError, AllHarmless, AllHonest, Layout.TemporaryName, Layout.IsCredentialName,
           Staged, NoTemporaries, CreateNew, Reject;
      ghost var seen := system.point.seen;
      var attempt := 0;
      while attempt < ATTEMPTS
        invariant attempt <= ATTEMPTS
        invariant system.Valid()
        invariant system.op == old(system.op) && system.fs == old(system.fs)
        invariant system.failures <= old(system.failures) + {Early}
        invariant ScriptKept(old(system.script), system.script)
        invariant system.point == if attempt < ATTEMPTS then
                                    AtRandom(directory, seen, attempt)
                                  else
                                    AtCloseDirectory(directory, Reject(system.op, NO_TEMPORARY))
        invariant AllHarmless(old(system.script)) && NoTemporaries(system.fs, system.op.service) ==> attempt == 0
      {
        var random := system.ReadRandom(directory, seen, attempt);
        if random.Failure? {
          return Failure(random.error);
        }
        var name := Layout.TemporaryName(random.value);
        TemporaryUnused(system.fs, system.op.service, random.value);
        ghost var before := system.fs;
        var created := system.CreateTemporaryFile(directory, seen, attempt, name);
        if created.Success? {
          CreateStages(before, system.fs, Path(system.op.service, name), created.value);
          return Success((name, created.value));
        }
        if !Is(created.error, Std(Exist)) {
          return Failure(created.error);
        }
        attempt := attempt + 1;
      }
      return Failure(NO_TEMPORARY);
    }

    method WriteAll(
      ghost directory: int, ghost seen: Option<Inode>, ghost temporary: string, descriptor: int, contents: Bytes)
      returns (problem: Option<Error>)
      requires system.Valid()
      requires system.point == AfterWrite(directory, seen, temporary, descriptor, contents)
      requires IsWritable(system.fs, descriptor)
      requires system.fs.nodes[system.fs.open[descriptor].inode].content == []
      modifies system
      ensures system.Valid()
      ensures system.op == old(system.op)
      ensures system.failures <= old(system.failures) + {Early}
      ensures ScriptKept(old(system.script), system.script)
      ensures OnlyContent(old(system.fs), system.fs, old(system.fs).open[descriptor].inode)
      ensures problem.None? ==> system.fs.nodes[old(system.fs).open[descriptor].inode].content == contents
      ensures system.point == match problem
                              case Some(err) => AtCleanupClose(directory, temporary, descriptor, err)
                              case None => AtSyncFile(directory, seen, temporary, descriptor)
      ensures AllHarmless(old(system.script)) ==> problem.None?
    {
      hide Consistent, Accounted, Is, OperationError, AllHarmless, AllHonest, OnlyContent;
      ghost var start, inode := system.fs, system.fs.open[descriptor].inode;
      ContentUnchanged(start, inode);
      var rest := contents;
      while rest != []
        invariant |rest| <= |contents| && rest == contents[|contents| - |rest|..]
        invariant system.Valid()
        invariant system.op == old(system.op)
        invariant system.failures <= old(system.failures) + {Early}
        invariant ScriptKept(old(system.script), system.script)
        invariant OnlyContent(start, system.fs, inode)
        invariant IsWritable(system.fs, descriptor) && system.fs.open[descriptor].inode == inode
        invariant system.fs.nodes[inode].content == contents[..|contents| - |rest|]
        invariant system.point == AfterWrite(directory, seen, temporary, descriptor, rest)
        decreases |rest|
      {
        ghost var before := system.fs;
        var written, failure := system.Write(directory, seen, temporary, descriptor, rest);
        ContentExtended(start, before, system.fs, inode);
        rest := rest[written..];
        if failure.Some? {
          return failure;
        }
        if written == 0 {
          return Some(Std(ShortWrite));
        }
      }
      return None;
    }

    /** Mode, contents and fsync of the temporary. */
    method Fill(
      ghost directory: int, ghost seen: Option<Inode>, ghost temporary: string, descriptor: int, value: Bytes,
      ghost before: Fs)
      returns (problem: Option<Error>)
      requires Consistent(before) && system.Valid()
      requires system.op.Set? && system.op.value == value
      requires system.point == AtChmod(directory, seen, temporary, descriptor)
      requires Staged(before, system.fs, Path(system.op.service, temporary), Some(descriptor),
                      Node(Meta(Regular, before.uid, before.createMode), []))
      requires system.failures <= {Early}
      modifies system
      ensures system.Valid()
      ensures system.op == old(system.op) && system.failures <= {Early}
      ensures ScriptKept(old(system.script), system.script)
      ensures AllHarmless(old(system.script)) ==> problem.None?
      ensures before.nextInode in system.fs.nodes
      ensures Staged(before, system.fs, Path(system.op.service, temporary), Some(descriptor),
                     system.fs.nodes[before.nextInode])
      ensures match problem
              case Some(err) => system.point == AtCleanupClose(directory, temporary, descriptor, err)
              case None =>
                && system.point == AtCloseFile(directory, seen, temporary, descriptor)
                && system.fs.nodes[before.nextInode] == Node(Meta(Regular, before.uid, SECRET_MODE), value)
                && before.nextInode in system.fs.synced
    {
      hide Consistent, Accounted, Is, OperationError, AllHarmless, AllHonest, Staged, OnlyContent;
      ghost var path := Path(system.op.service, temporary);
      ghost var created := system.fs;
      StagedNode(before, created, path, Some(descriptor), Node(Meta(Regular, before.uid, before.createMode), []));
      StagedOpen(before, created, path, descriptor);
      problem := system.Fchmod(directory, seen, temporary, descriptor);
      if problem.Some? {
        return;
      }
      StagedChmod(before, created, system.fs, path, descriptor);
      ghost var private := system.fs;
      problem := WriteAll(directory, seen, temporary, descriptor, value);
      StagedContent(before, private, system.fs, path, descriptor);
      if problem.Some? {
        return;
      }
      StagedOpen(before, system.fs, path, descriptor);
      ghost var full := system.fs;
      problem := system.SyncFile(directory, seen, temporary, descriptor);
      StagedSynced(before, full, system.fs, path, descriptor);
    }

    /** The two calls that make a complete temporary the credential. */
    method RenameAndSync(
      directory: int, ghost seen: Option<Inode>, temporary: string, name: string, value: Bytes, ghost before: Fs)
      returns (problem: Option<Error>, renamed: bool)
      requires Consistent(before) && system.Valid()
      requires system.op.Set? && system.op.value == value && name == Name(system.op)
      requires system.point == AtRename(directory, seen, temporary)
      requires IsDirectory(before, directory, Service(system.op.service))
      requires Staged(before, system.fs, Path(system.op.service, temporary), None,
                      Node(Meta(Regular, before.uid, SECRET_MODE), value))
      requires before.nextInode in system.fs.synced
      requires system.failures <= {Early}
      modifies system
      ensures system.Valid()
      ensures system.op == old(system.op)
      ensures ScriptKept(old(system.script), system.script)
      ensures AllHarmless(old(system.script)) ==> problem.None?
      ensures problem.None? ==> renamed && DirectorySync !in system.failures
      ensures Cleanup !in system.failures && (!renamed ==> system.failures <= {Early})
      ensures renamed && problem.Some? ==> DirectorySync in system.failures
      ensures renamed ==>
        && system.point == AtCloseDirectory(directory, if problem.Some? then Reject(system.op, problem.value) else Stored)
        && Published(before, system.fs, PathFor(system.op), value)
        && (problem.None? ==> Candidates(system.fs, PathFor(system.op)) == {Binding(system.fs, PathFor(system.op))})
      ensures !renamed ==>
        && problem.Some?
        && system.fs == old(system.fs)
        && system.point == AtCleanupUnlink(directory, temporary, problem.value)
    {
      hide Consistent, Accounted, Is, OperationError, AllHarmless, AllHonest, Layout.Hex, Layout.IsCredentialName, Published, Staged,
           RenameEntry, Candidates, Binding;
      ghost var path := Path(system.op.service, temporary);
      StagedNode(before, system.fs, path, None, Node(Meta(Regular, before.uid, SECRET_MODE), value));
      StagedShape(before, system.fs, path);
      RenamePublishes(before, system.fs, path, PathFor(system.op), value);
      problem := system.Rename(directory, seen, temporary, name);
      renamed := problem.None?;
      if renamed {
        ghost var published := system.fs;
        PublishedOpen(before, published, PathFor(system.op), value);
        problem := system.SyncDirectory(directory);
        SyncPublishes(before, published, system.fs, PathFor(system.op), value, problem);
      }
    }

    /** The body of `writeAtomic` after the temporary exists; `open` and `renamed` steer the deferred cleanup. */
    method FillAndRename(
      directory: int, ghost seen: Option<Inode>, temporary: string, descriptor: int, name: string, value: Bytes,
      ghost before: Fs)
      returns (problem: Option<Error>, open: bool, renamed: bool)
      requires Consistent(before) && system.Valid()
      requires system.op.Set? && system.op.value == value && name == Name(system.op)
      requires system.point == AtChmod(directory, seen, temporary, descriptor)
      requires IsDirectory(before, directory, Service(system.op.service))
      requires Staged(before, system.fs, Path(system.op.service, temporary), Some(descriptor),
                      Node(Meta(Regular, before.uid, before.createMode), []))
      requires system.failures <= {Early}
      modifies system
      ensures system.Valid()
      ensures system.op == old(system.op)
      ensures ScriptKept(old(system.script), system.script)
      ensures AllHarmless(old(system.script)) ==> problem.None?
      ensures problem.None? ==> renamed && DirectorySync !in system.failures
      ensures Cleanup !in system.failures && (!renamed ==> system.failures <= {Early})
      ensures renamed && problem.Some? ==> DirectorySync in system.failures
      ensures renamed ==>
        && !open
        && system.point == AtCloseDirectory(directory, if problem.Some? then Reject(system.op, problem.value) else Stored)
        && Published(before, system.fs, PathFor(system.op), value)
        && (problem.None? ==> Candidates(system.fs, PathFor(system.op)) == {Binding(system.fs, PathFor(system.op))})
      ensures !renamed ==>
        && problem.Some?
        && before.nextInode in system.fs.nodes
        && Staged(before, system.fs, Path(system.op.service, temporary), if open then Some(descriptor) else None,
                  system.fs.nodes[before.nextInode])
        && system.point == if open then
                             AtCleanupClose(directory, temporary, descriptor, problem.value)
                           else
                             AtCleanupUnlink(directory, temporary, problem.value)
    {
      hide Consistent, Accounted, Is, OperationError, AllHarmless, AllHonest, Layout.Hex, Layout.IsCredentialName, Published, Staged;
      ghost var path := Path(system.op.service, temporary);
      open, renamed := true, false;
      problem := Fill(directory, seen, temporary, descriptor, value, before);
      if problem.Some? {
        return;
      }
      StagedCloses(before, system.fs, path, descriptor);
      problem := system.Close(descriptor);
      open := false;
      if problem.Some? {
        return;
      }
      problem, renamed := RenameAndSync(directory, seen, temporary, name, value, before);
    }

    /** The deferred cleanup of `writeAtomic` when the rename did not happen. */
    method CleanUp(directory: int, temporary: string, descriptor: int, open: bool, reason: Error, ghost before: Fs)
      returns (problem: Error)
      requires Consistent(before) && system.Valid()
      requires system.op.Set?
      requires IsDirectory(before, directory, Service(system.op.service))
      requires system.point == if open then
                                 AtCleanupClose(directory, temporary, descriptor, reason)
                               else
                                 AtCleanupUnlink(directory, temporary, reason)
      requires before.nextInode in system.fs.nodes
      requires Staged(before, system.fs, Path(system.op.service, temporary), if open then Some(descriptor) else None,
                      system.fs.nodes[before.nextInode])
      requires system.failures <= {Early}
      modifies system
      ensures system.Valid()
      ensures system.op == old(system.op)
      ensures system.point == AtCloseDirectory(directory, Reject(system.op, problem))
      ensures SetEffect(before, system.fs, PathFor(system.op), system.op.value, system.failures, false)
      ensures ScriptKept(old(system.script), system.script)
    {
      hide Consistent, Accounted, Is, OperationError, AllHarmless, AllHonest, Layout.Hex, Layout.IsCredentialName, Staged, SetEffect,
           Explained, Rebind, AfterCleanup, JoinOptional, Reject, Closing, AfterClose, Unlinking, AfterUnlink, StageOf;
      ghost var path := Path(system.op.service, temporary);
      CleanupSteps(system.op, directory, temporary, descriptor, reason);
      problem := reason;
      if open {
        StagedCloses(before, system.fs, path, descriptor);
        var closeProblem := system.Close(descriptor);
        problem := JoinOptional(problem, closeProblem);
      }
      CleanupSteps(system.op, directory, temporary, descriptor, problem);
      ghost var staged := system.fs;
      StagedShape(before, staged, path);
      var cleanup := system.Unlink(directory, temporary);
      problem := AfterCleanup(problem, cleanup);
      if cleanup.None? {
        StagedUnlinked(before, staged, path, PathFor(system.op), system.op.value, system.failures);
      } else {
        StagedStays(before, staged, path, PathFor(system.op), system.op.value, system.failures);
      }
    }

    method WriteAtomic(directory: int, name: string, value: Bytes) returns (problem: Option<Error>)
      requires system.Valid()
      requires system.op.Set? && system.op.value == value && name == Name(system.op)
      requires system.point.AtRandom? && system.point.directory == directory && system.point.attempt == 0
      requires IsDirectory(system.fs, directory, Service(system.op.service))
      requires system.failures <= {Early}
      modifies system
      ensures system.Valid()
      ensures system.op == old(system.op)
      ensures system.point ==
              AtCloseDirectory(directory, if problem.Some? then Reject(system.op, problem.value) else Stored)
      ensures SetEffect(old(system.fs), system.fs, PathFor(system.op), value, system.failures, problem.None?)
      ensures ScriptKept(old(system.script), system.script)
      ensures AllHarmless(old(system.script)) && NoTemporaries(old(system.fs), system.op.service) ==> problem.None?
    {
      hide Consistent, Accounted, Is, OperationError, AllHarmless, AllHonest, Layout.Hex, Layout.IsCredentialName, Staged, Published, SetEffect;
      ghost var before, seen := system.fs, system.point.seen;
      var created := CreateTemporary(directory);
      if created.Failure? {
        NothingWritten(before, PathFor(system.op), value, system.failures);
        return Some(created.error);
      }
      var (temporary, descriptor) := created.value;
      ghost var path := Path(system.op.service, temporary);
      var open, renamed;
      problem, open, renamed := FillAndRename(directory, seen, temporary, descriptor, name, value, before);

      if renamed {
        PublishedIsSet(before, system.fs, PathFor(system.op), value, system.failures, problem.None?);
      } else {
        var reason := CleanUp(directory, temporary, descriptor, open, problem.value, before);
        problem := Some(reason);
      }
    }

    /** A missing credential is fine; an existing one must be secure. */
    method ValidateExistingCredential(directory: int, name: string) returns (problem: Option<Error>)
      requires system.Valid()
      requires system.point == AtOpen(directory) && name == Name(system.op) && system.op.Set?
      requires IsDirectory(system.fs, directory, Service(system.op.service))
      modifies system
      ensures system.Valid()
      ensures system.op == old(system.op)
      ensures OnlyDescriptors(old(system.fs), system.fs) && system.fs.open == old(system.fs).open
      ensures system.failures <= old(system.failures) + {Early}
      ensures ScriptKept(old(system.script), system.script)
      ensures match problem
              case Some(err) => system.point == AtCloseDirectory(directory, Reject(system.op, err))
              case None => system.point.AtRandom? && system.point.directory == directory && system.point.attempt == 0
      ensures AllHonest(old(system.script)) && problem.None? ==>
        SecureAt(system.fs, PathFor(system.op)) || PathFor(system.op) !in system.fs.entries
      ensures AllHarmless(old(system.script)) && Replaceable(system.fs, PathFor(system.op)) ==> problem.None?
      ensures AllHarmless(old(system.script)) && InsecureAt(old(system.fs), PathFor(system.op)) ==>
        problem.Some? && SaysInsecure(problem.value)
    {
      hide Consistent, Accounted, Is, OperationError, AllHarmless, AllHonest;
      var credential := OpenCredential(directory, name);
      if credential.Failure? {
        if SaysInsecure(credential.error) {
          InsecureIsNotMissing(credential.error);
        }
        return if Is(credential.error, Std(NotExist)) then None else Some(credential.error);
      }
      problem := system.Close(credential.value);
    }

    /** The part of `set` between opening and closing the service directory. */
    method SetIn(directory: int, name: string, value: Bytes) returns (problem: Option<Error>)
      requires system.Valid()
      requires system.point == AtOpen(directory) && name == Name(system.op)
      requires system.op.Set? && system.op.value == value
      requires IsDirectory(system.fs, directory, Service(system.op.service))
      requires system.failures <= {Early}
      modifies system
      ensures system.Valid()
      ensures system.op == old(system.op)
      ensures system.point == AtCloseDirectory(directory, if problem.Some? then Reject(system.op, problem.value) else Stored)
      ensures SetEffect(old(system.fs), system.fs, PathFor(system.op), value, system.failures, problem.None?)
      ensures ScriptKept(old(system.script), system.script)
      ensures AllHarmless(old(system.script)) && NoTemporaries(old(system.fs), system.op.service) && Replaceable(old(system.fs), PathFor(system.op)) ==>
        problem.None?
      ensures AllHarmless(old(system.script)) && InsecureAt(old(system.fs), PathFor(system.op)) ==>
        problem.Some? && Exactly(OperationError(false, problem.value), InsecureFallback)
    {
      hide Consistent, Accounted, Is, OperationError, AllHarmless, AllHonest, Layout.Hex, Layout.IsCredentialName, SetEffect,
           NoTemporaries, Replaceable, Exactly, SaysInsecure, InsecureAt;
      ghost var before := system.fs;
      problem := ValidateExistingCredential(directory, name);
      ghost var validated := system.fs;
      SameFilesSame(before, validated, system.op.service, PathFor(system.op));
      if problem.None? {
        problem := WriteAtomic(directory, name, value);
      } else {
        if SaysInsecure(problem.value) {
          InsecureRejected(false, problem.value);
        }
        NothingWritten(validated, PathFor(system.op), value, system.failures);
      }
      SetEffectOpen(validated, system.fs, PathFor(system.op), value, system.failures, problem.None?);
      SetEffectFrame(
        validated, system.fs, before, system.fs, PathFor(system.op), value, system.failures, problem.None?, system.failures);
    }

    method Set(name: string, value: Bytes) returns (reply: Reply)
      requires system.Valid()
      requires system.point == AtMount && system.failures == {} && system.history == []
      requires system.op == Op.Set(service, system.op.digest, value) && name == Name(system.op)
      modifies system
      ensures system.Valid()
      ensures system.op == old(system.op) && system.point == Finished(reply)
      ensures !reply.Value?
      ensures SetEffect(old(system.fs), system.fs, PathFor(system.op), value, system.failures, reply.Stored?)
      ensures ScriptKept(old(system.script), system.script)
      ensures AllHarmless(old(system.script)) && CanSet(old(system.fs), PathFor(system.op)) ==> reply.Stored?
      ensures AllHarmless(old(system.script)) && DirectoriesAcceptable(old(system.fs), service) && InsecureAt(old(system.fs), PathFor(system.op)) ==>
        reply.Rejected? && Exactly(reply.error, InsecureFallback)
      ensures Settled(system.op, system.history, reply)
    {
      hide Consistent, Accounted, Is, OperationError, AllHarmless, AllHonest, Layout.Hex, Layout.IsCredentialName, SetEffect,
           NoTemporaries, Replaceable, DirectoriesAcceptable, DirectoriesReady, ServiceExists, HonestRun, MountRefused, FailsForMissing, Closing, AfterClose, Explained, Settled, Exactly, InsecureAt, SaysInsecure;
      ghost var start := system.fs;
      var directory := OpenServiceDirectory(true);
      if directory.Failure? {
        NothingWritten(start, PathFor(system.op), value, system.failures);
        SetEffectFrame(
          start, start, start, system.fs, PathFor(system.op), value, system.failures, false, system.failures);
        reply := Rejected(OperationError(false, directory.error));
        FinishedIsSettled(system.op, system.history, reply);
        return;
      }
      ghost var entered := system.fs;
      SameFilesSame(start, entered, service, PathFor(system.op));
      var problem := SetIn(directory.value, name, value);
      ghost var written, failures := system.fs, system.failures;
      SetEffectOpen(entered, written, PathFor(system.op), value, failures, problem.None?);
      ClosingSteps(system.op, directory.value, if problem.Some? then Reject(system.op, problem.value) else Stored);
      var _ := system.Close(directory.value);
      SetEffectFrame(
        entered, written, start, system.fs, PathFor(system.op), value, failures, problem.None?, system.failures);
      reply := if problem.Some? then Rejected(OperationError(false, problem.value)) else Stored;
      FinishedIsSettled(system.op, system.history, reply);
    }

    /** The calls of `delete` once the credential has been validated; `before` is how it was found. */
    method CloseAndUnlink(directory: int, name: string, descriptor: int, ghost before: Fs)
      returns (problem: Option<Error>)
      requires Consistent(before) && system.Valid()
      requires system.op.Delete? && name == Name(system.op)
      requires SecureAt(before, PathFor(system.op))
      requires system.point == AtCloseChecked(directory, descriptor, before.entries[PathFor(system.op)])
      requires IsDirectory(before, directory, Service(system.op.service))
      requires DescriptorAdded(
                 before, system.fs, FileHandle(before.entries[PathFor(system.op)], false, 0), Success(descriptor))
      requires system.failures <= {Early}
      modifies system
      ensures system.Valid()
      ensures system.op == old(system.op)
      ensures system.point ==
              AtCloseDirectory(directory, if problem.Some? then Reject(system.op, problem.value) else Stored)
      ensures DeleteEffect(before, system.fs, PathFor(system.op), system.failures, problem.None?)
      ensures ScriptKept(old(system.script), system.script)
      ensures Explained(old(system.script), problem)
    {
      hide Consistent, Accounted, Is, OperationError, AllHarmless, AllHonest, Layout.Hex, Layout.IsCredentialName, DeleteEffect,
           SecureAt, Explained, Candidates, Binding;
      ghost var script := system.script;
      SecureIsBound(before, PathFor(system.op));
      problem := system.Close(descriptor);
      ghost var closed := system.fs;
      assert closed.open == before.open;
      if problem.Some? {
        NothingDeletedFrame(before, closed, PathFor(system.op), system.failures);
        return;
      }
      ghost var unlinking := system.script;
      problem := system.Unlink(directory, name);
      ExplainedEarlier(script, unlinking, problem);
      if problem.Some? {
        NothingDeletedFrame(before, closed, PathFor(system.op), system.failures);
        return;
      }
      ghost var unlinked, syncing := system.fs, system.script;
      problem := system.SyncDirectory(directory);
      ExplainedEarlier(script, syncing, problem);
      UnlinkDeletes(before, closed, unlinked, system.fs, PathFor(system.op), system.failures, problem);
    }

    /** The part of `delete` between opening and closing the service directory. */
    method DeleteIn(directory: int, name: string) returns (reply: Reply)
      requires system.Valid()
      requires system.point == AtOpen(directory) && name == Name(system.op) && system.op.Delete?
      requires IsDirectory(system.fs, directory, Service(system.op.service))
      requires system.failures <= {Early}
      modifies system
      ensures system.Valid()
      ensures system.op == old(system.op) && system.point == AtCloseDirectory(directory, reply)
      ensures !reply.Value?
      ensures DeleteEffect(old(system.fs), system.fs, PathFor(system.op), system.failures, reply.Stored?)
      ensures ScriptKept(old(system.script), system.script)
      ensures InsideVerdict(old(system.fs), PathFor(system.op), old(system.script), reply)
    {
      hide Consistent, Accounted, Is, OperationError, AllHarmless, AllHonest, Layout.Hex, Layout.IsCredentialName, DeleteEffect,
           CredentialVerdict, InsideVerdict, SecureAt;
      ghost var before, script := system.fs, system.script;
      var credential := OpenCredential(directory, name);
      if credential.Failure? {
        NotOpenedVerdict(before, PathFor(system.op), script, credential.error);
        NothingDeletedFrame(before, system.fs, PathFor(system.op), system.failures);
        return Rejected(OperationError(true, credential.error));
      }
      CredentialIsSecure(before, PathFor(system.op), script, credential.value);
      ghost var unlinking := system.script;
      var problem := CloseAndUnlink(directory, name, credential.value, before);
      UnlinkedVerdict(problem, unlinking);
      reply := if problem.Some? then Rejected(OperationError(true, problem.value)) else Stored;
      OpenedVerdict(before, PathFor(system.op), script, credential.value, reply);
    }

    method Delete(name: string) returns (reply: Reply)
      requires system.Valid()
      requires system.point == AtMount && system.failures == {} && system.history == []
      requires system.op.Delete? && system.op.service == service && name == Name(system.op)
      modifies system
      ensures system.Valid()
      ensures system.op == old(system.op) && system.point == Finished(reply)
      ensures !reply.Value?
      ensures DeleteEffect(old(system.fs), system.fs, PathFor(system.op), system.failures, reply.Stored?)
      ensures ScriptKept(old(system.script), system.script)
      ensures HonestRun(old(system.script)) ==>
        NotFoundExplained(old(system.fs), PathFor(system.op), old(system.script), reply)
      ensures Upcoming(old(system.script)).error.Some? ==>
        reply == Rejected(OperationError(true, Upcoming(old(system.script)).error.value))
      ensures AllHarmless(old(system.script)) && DirectoriesAcceptable(old(system.fs), service) && PathFor(system.op) !in old(system.fs).entries ==>
        reply.Rejected? && IsCategory(reply.error, NotFound)
      ensures AllHarmless(old(system.script)) && DirectoriesReady(old(system.fs), service) && SecureAt(old(system.fs), PathFor(system.op)) ==>
        reply.Stored?
      ensures AllHarmless(old(system.script)) && DirectoriesReady(old(system.fs), service) && InsecureAt(old(system.fs), PathFor(system.op)) ==>
        reply.Rejected? && Exactly(reply.error, InsecureFallback)
      ensures Settled(system.op, system.history, reply)
    {
      hide Consistent, Accounted, Is, OperationError, AllHarmless, AllHonest, HonestRun, Layout.Hex, Layout.IsCredentialName,
           DeleteEffect, DirectoriesReady, DirectoriesAcceptable, MountRefused, FailsForMissing, NotFoundExplained,
           InsideVerdict, Closing, AfterClose, Explained, Settled, Exactly, InsecureAt;
      ghost var start, script := system.fs, system.script;
      EntryExists(start, PathFor(system.op));
      var directory := OpenServiceDirectory(false);
      if directory.Failure? {
        NotEntered(start, PathFor(system.op), script, directory.error, ServiceExists(system.fs, service));
        NothingDeletedFrame(start, system.fs, PathFor(system.op), system.failures);
        reply := Rejected(OperationError(true, directory.error));
        FinishedIsSettled(system.op, system.history, reply);
        return;
      }
      ghost var entered, inside := system.fs, system.script;
      reply := DeleteIn(directory.value, name);
      InsideExplained(start, entered, PathFor(system.op), script, inside, reply);
      ghost var deleted := system.fs;
      ghost var failures := system.failures;
      DeleteEffectOpen(entered, deleted, PathFor(system.op), failures, reply.Stored?);
      ClosingSteps(system.op, directory.value, reply);
      var _ := system.Close(directory.value);
      FinishedIsSettled(system.op, system.history, reply);
      DeleteEffectFrame(
        entered, deleted, start, system.fs, PathFor(system.op), failures, reply.Stored?, system.failures);
    }
  }
}
