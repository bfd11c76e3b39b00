/**
 The Linux file system as internal/backend/fs sees it: one transition per call of `linuxSystem`
 (storage_linux.go:25-39), the faults that may hit any of them, and what a crash may leave behind.

 Environment contract:
  - the counts reported by read and write lie between zero and the length asked for, also on error;
  - a read that delivers nothing without an error is at the end of the file;
  - a failing create, rename or unlink changes nothing;
  - close releases the descriptor even when it reports an error;
  - descriptors and inodes are identities: a number is not handed out again.
 */
module Filesystem {
  import opened Wrappers
  import opened Errors
  import Layout

  const SECRET_MODE: nat := 0x180  // 0o600
  const DIRECTORY_MODE: nat := 0x1C0  // 0o700

  type Inode = nat

  datatype Kind = Regular | Folder | Symlink | Special

  datatype Meta = Meta(kind: Kind, uid: nat, mode: nat)

  datatype Node = Node(meta: Meta, content: Bytes)

  datatype Directory = Root | Version | Service(id: string)

  datatype Path = Path(service: string, name: string)

  datatype Handle =
    | DirectoryHandle(directory: Directory)
    | FileHandle(inode: Inode, writable: bool, offset: nat)

  /**
   `candidates` records, for the names changed since the last directory fsync, every binding a crash
   may leave; `synced` holds the inodes whose present content is on disk.
   */
  datatype Fs = Fs(
    uid: nat,
    createMode: nat,
    directories: map<Directory, Meta>,
    entries: map<Path, Inode>,
    nodes: map<Inode, Node>,
    open: map<int, Handle>,
    candidates: map<Path, set<Option<Inode>>>,
    synced: set<Inode>,
    nextInode: Inode,
    nextDescriptor: nat)

  /** What the environment decides about one call. */
  datatype Disturbance = Disturbance(error: Option<Error>, short: Option<nat>, random: Bytes)

  datatype Call =
    | ValidateMount
    | PrepareDirectories(service: string)
    | OpenRoot
    | OpenVersion(root: int)
    | OpenService(version: int, service: string)
    | OpenFile(directory: int, name: string)
    | CreateFile(directory: int, name: string)
    | ReadRandom
    | Fstat(descriptor: int)
    | Fchmod(descriptor: int, mode: nat)
    | Read(descriptor: int)
    | Write(descriptor: int, contents: Bytes)
    | Fsync(descriptor: int)
    | Close(descriptor: int)
    | Rename(directory: int, from: string, to: string)
    | Unlink(directory: int, name: string)

  datatype Outcome =
    | Done
    | Failed(error: Error)
    | Opened(descriptor: int)
    | Status(meta: Meta, inode: Inode)
    | Transferred(count: nat, data: Bytes, problem: Option<Error>)
    | Random(bytes: Bytes)

  const CALM := Disturbance(None, None, [0, 0, 0, 0, 0, 0, 0, 0, 0, 0, 0, 0, 0, 0, 0, 0])

  function Binding(fs: Fs, path: Path): Option<Inode> {
    if path in fs.entries then Some(fs.entries[path]) else None
  }

  function Candidates(fs: Fs, path: Path): set<Option<Inode>> {
    if path in fs.candidates then fs.candidates[path] else {Binding(fs, path)}
  }

  /** Binds or unbinds a name; until the directory is synced a crash may or may not undo it. */
  function Rebind(fs: Fs, path: Path, binding: Option<Inode>): Fs {
    fs.(entries := if binding.Some? then fs.entries[path := binding.value] else fs.entries - {path},
        candidates := fs.candidates[path := Candidates(fs, path) + {binding}])
  }

  predicate SecureMeta(meta: Meta, kind: Kind, uid: nat) {
    meta.kind == kind && meta.uid == uid && meta.mode % 64 == 0
  }

  predicate SecureDirectory(fs: Fs, directory: Directory) {
    directory in fs.directories && SecureMeta(fs.directories[directory], Folder, fs.uid)
  }

  function WithDirectory(fs: Fs, directory: Directory): Fs {
    if directory in fs.directories then
      fs
    else
      fs.(directories := fs.directories[directory := Meta(Folder, fs.uid, DIRECTORY_MODE)])
  }

  const INSECURE := Errors.Fault(InsecureFallback)

  /** `prepareDirectories`, stopping after `limit` levels when a fault hits it. */
  function Prepare(fs: Fs, service: string, problem: Option<Error>, limit: nat): (Fs, Outcome) {
    var afterRoot := WithDirectory(fs, Root);
    var afterVersion := WithDirectory(afterRoot, Version);
    var afterService := WithDirectory(afterVersion, Service(service));
    if problem.Some? && limit == 0 then
      (fs, Failed(problem.value))
    else if !SecureDirectory(afterRoot, Root) then
      (afterRoot, Failed(INSECURE))
    else if problem.Some? && limit == 1 then
      (afterRoot, Failed(problem.value))
    else if !SecureDirectory(afterVersion, Version) then
      (afterVersion, Failed(INSECURE))
    else if problem.Some? && limit == 2 then
      (afterVersion, Failed(problem.value))
    else if !SecureDirectory(afterService, Service(service)) then
      (afterService, Failed(INSECURE))
    else
      (afterService, if problem.Some? then Failed(problem.value) else Done)
  }

  function Install(fs: Fs, handle: Handle): (Fs, Outcome) {
    (fs.(open := fs.open[fs.nextDescriptor := handle], nextDescriptor := fs.nextDescriptor + 1),
     Opened(fs.nextDescriptor))
  }

  function OpenDirectory(fs: Fs, directory: Directory, problem: Option<Error>): (Fs, Outcome) {
    if problem.Some? then
      (fs, Failed(problem.value))
    else if directory !in fs.directories then
      (fs, Failed(Annotate(Errno(ENOENT))))
    else if !SecureDirectory(fs, directory) then
      (fs, Failed(INSECURE))
    else
      Install(fs, DirectoryHandle(directory))
  }

  predicate IsDirectory(fs: Fs, descriptor: int, directory: Directory) {
    descriptor in fs.open && fs.open[descriptor] == DirectoryHandle(directory)
  }

  predicate IsServiceDirectory(fs: Fs, descriptor: int) {
    && descriptor in fs.open
    && fs.open[descriptor].DirectoryHandle?
    && fs.open[descriptor].directory.Service?
  }

  function PathOf(fs: Fs, directory: int, name: string): Path
    requires IsServiceDirectory(fs, directory)
  {
    Path(fs.open[directory].directory.id, name)
  }

  predicate IsFile(fs: Fs, descriptor: int) {
    && descriptor in fs.open
    && fs.open[descriptor].FileHandle?
    && fs.open[descriptor].inode in fs.nodes
  }

  predicate IsWritable(fs: Fs, descriptor: int) {
    IsFile(fs, descriptor) && fs.open[descriptor].writable
  }

  /** What a call demands of its descriptors: each is open and of the right sort. */
  predicate Callable(fs: Fs, call: Call) {
    match call
    case OpenVersion(root) => IsDirectory(fs, root, Root)
    case OpenService(version, _) => IsDirectory(fs, version, Version)
    case OpenFile(directory, _) => IsServiceDirectory(fs, directory)
    case CreateFile(directory, _) => IsServiceDirectory(fs, directory)
    case Rename(directory, _, _) => IsServiceDirectory(fs, directory)
    case Unlink(directory, _) => IsServiceDirectory(fs, directory)
    case Fstat(descriptor) => IsFile(fs, descriptor)
    case Fchmod(descriptor, _) => IsWritable(fs, descriptor)
    case Read(descriptor) => IsFile(fs, descriptor) && !fs.open[descriptor].writable
    case Write(descriptor, contents) => IsWritable(fs, descriptor) && contents != []
    case Fsync(descriptor) => IsFile(fs, descriptor) || IsServiceDirectory(fs, descriptor)
    case Close(descriptor) => descriptor in fs.open
    case _ => true
  }

  function Min(a: nat, b: nat): nat {
    if a <= b then a else b
  }

  /** How much of a transfer goes through. */
  function Allowance(fault: Disturbance, wanted: nat): nat {
    if fault.short.None? then wanted else Min(fault.short.value, wanted)
  }

  function ReadFile(fs: Fs, descriptor: int, fault: Disturbance): (Fs, Outcome)
    requires Callable(fs, Read(descriptor))
  {
    var handle := fs.open[descriptor];
    var content := fs.nodes[handle.inode].content;
    var rest := if handle.offset <= |content| then content[handle.offset..] else [];
    var allowed := Allowance(fault, |rest|);
    var count := if fault.error.None? && allowed == 0 then Min(1, |rest|) else allowed;
    (fs.(open := fs.open[descriptor := handle.(offset := handle.offset + count)]),
     Transferred(count, rest[..count], fault.error))
  }

  function WriteFile(fs: Fs, descriptor: int, contents: Bytes, fault: Disturbance): (Fs, Outcome)
    requires Callable(fs, Write(descriptor, contents))
  {
    var inode := fs.open[descriptor].inode;
    var count := Allowance(fault, |contents|);
    (fs.(nodes := fs.nodes[inode := fs.nodes[inode].(content := fs.nodes[inode].content + contents[..count])],
         synced := fs.synced - {inode}),
     Transferred(count, [], fault.error))
  }

  function SyncFile(fs: Fs, descriptor: int, problem: Option<Error>): (Fs, Outcome)
    requires Callable(fs, Fsync(descriptor))
  {
    if problem.Some? then
      (fs, Failed(problem.value))
    else
      match fs.open[descriptor]
      case FileHandle(inode, _, _) => (fs.(synced := fs.synced + {inode}), Done)
      case DirectoryHandle(directory) =>
        (fs.(candidates := map path | path in fs.candidates && path.service != directory.id :: fs.candidates[path]),
         Done)
  }

  function CreateNew(fs: Fs, path: Path, problem: Option<Error>): (Fs, Outcome) {
    if problem.Some? then
      (fs, Failed(problem.value))
    else if path in fs.entries then
      (fs, Failed(Errno(EEXIST)))
    else
      var inode := fs.nextInode;
      var created := Rebind(fs, path, Some(inode));
      Install(
        created.(nodes := created.nodes[inode := Node(Meta(Regular, fs.uid, fs.createMode), [])],
                 synced := created.synced - {inode},
                 nextInode := inode + 1),
        FileHandle(inode, true, 0))
  }

  function OpenExisting(fs: Fs, path: Path, problem: Option<Error>): (Fs, Outcome) {
    if problem.Some? then
      (fs, Failed(problem.value))
    else if path !in fs.entries then
      (fs, Failed(Errno(ENOENT)))
    else if fs.entries[path] in fs.nodes && fs.nodes[fs.entries[path]].meta.kind == Symlink then
      (fs, Failed(Errno(ELOOP)))
    else
      Install(fs, FileHandle(fs.entries[path], false, 0))
  }

  function RenameEntry(fs: Fs, from: Path, to: Path, problem: Option<Error>): (Fs, Outcome) {
    if problem.Some? then
      (fs, Failed(problem.value))
    else if from !in fs.entries then
      (fs, Failed(Errno(ENOENT)))
    else
      (Rebind(Rebind(fs, to, Some(fs.entries[from])), from, None), Done)
  }

  function UnlinkEntry(fs: Fs, path: Path, problem: Option<Error>): (Fs, Outcome) {
    if problem.Some? then
      (fs, Failed(problem.value))
    else if path !in fs.entries then
      (fs, Failed(Errno(ENOENT)))
    else
      (Rebind(fs, path, None), Done)
  }

  /** One system call. */
  function Exec(fs: Fs, call: Call, fault: Disturbance): (Fs, Outcome)
    requires Callable(fs, call)
  {
    match call
    case ValidateMount => (fs, if fault.error.Some? then Failed(fault.error.value) else Done)
    case PrepareDirectories(service) => Prepare(fs, service, fault.error, Allowance(fault, 3))
    case OpenRoot => OpenDirectory(fs, Root, fault.error)
    case OpenVersion(_) => OpenDirectory(fs, Version, fault.error)
    case OpenService(_, service) => OpenDirectory(fs, Service(service), fault.error)
    case OpenFile(directory, name) => OpenExisting(fs, PathOf(fs, directory, name), fault.error)
    case CreateFile(directory, name) => CreateNew(fs, PathOf(fs, directory, name), fault.error)
    case ReadRandom =>
      if fault.error.Some? || |fault.random| != Layout.RANDOM_BYTES then
        (fs, Failed(if fault.error.Some? then fault.error.value else Std(ShortWrite)))
      else
        (fs, Random(fault.random))
    case Fstat(descriptor) =>
      var inode := fs.open[descriptor].inode;
      (fs, if fault.error.Some? then Failed(fault.error.value) else Status(fs.nodes[inode].meta, inode))
    case Fchmod(descriptor, mode) =>
      var inode := fs.open[descriptor].inode;
      if fault.error.Some? then
        (fs, Failed(fault.error.value))
      else
        (fs.(nodes := fs.nodes[inode := fs.nodes[inode].(meta := fs.nodes[inode].meta.(mode := mode))],
             synced := fs.synced - {inode}),
         Done)
    case Read(descriptor) => ReadFile(fs, descriptor, fault)
    case Write(descriptor, contents) => WriteFile(fs, descriptor, contents, fault)
    case Fsync(descriptor) => SyncFile(fs, descriptor, fault.error)
    case Close(descriptor) =>
      (fs.(open := fs.open - {descriptor}),
       if fault.error.Some? then Failed(fault.error.value) else Done)
    case Rename(directory, from, to) =>
      RenameEntry(fs, PathOf(fs, directory, from), PathOf(fs, directory, to), fault.error)
    case Unlink(directory, name) => UnlinkEntry(fs, PathOf(fs, directory, name), fault.error)
  }

  /**
   What a crash may leave: every name independently keeps one of its candidate bindings, an inode that
   was synced keeps its content and any other bound inode may hold anything; no descriptor survives.
   */
  ghost predicate CrashOutcome(before: Fs, after: Fs) {
    && after.uid == before.uid
    && after.createMode == before.createMode
    && after.directories == before.directories
    && after.open == map[]
    && after.candidates == map[]
    && after.nextInode >= before.nextInode
    && after.nextDescriptor >= before.nextDescriptor
    && (forall path :: Binding(after, path) in Candidates(before, path))
    && after.synced == after.nodes.Keys
    && (forall path <- after.entries :: after.entries[path] in after.nodes)
    && (forall inode <- before.synced :: inode in before.nodes && inode in after.nodes ==> after.nodes[inode] == before.nodes[inode])
    && (forall inode <- after.nodes :: inode < after.nextInode)
  }
}
