/** Consistency of the file system state, kept by every call whatever fault hits it. */
module Invariants {
  import opened Wrappers
  import opened Errors
  import opened Filesystem
  import opened Program
  import Layout

  function Ancestors(directory: Directory): set<Directory> {
    match directory
    case Root => {Root}
    case Version => {Root, Version}
    case Service(_) => {Root, Version, directory}
  }

  ghost predicate HandleConsistent(fs: Fs, handle: Handle) {
    match handle
    case DirectoryHandle(directory) => Ancestors(directory) <= fs.directories.Keys
    case FileHandle(inode, _, _) => inode in fs.nodes
  }

  /** Nothing dangles: entries, handles, candidates and sync marks name inodes that exist. */
  ghost predicate Consistent(fs: Fs) {
    && fs.createMode % 64 == 0
    && (forall path <- fs.entries ::
          fs.entries[path] in fs.nodes && Ancestors(Service(path.service)) <= fs.directories.Keys)
    && (forall inode <- fs.nodes :: inode < fs.nextInode)
    && (forall inode <- fs.synced :: inode in fs.nodes)
    && (forall descriptor <- fs.open ::
          descriptor < fs.nextDescriptor && HandleConsistent(fs, fs.open[descriptor]))
    && (forall path <- fs.candidates ::
          && Binding(fs, path) in fs.candidates[path]
          && forall binding <- fs.candidates[path] | binding.Some? ::
               binding.value in fs.nodes && Ancestors(Service(path.service)) <= fs.directories.Keys)
  }

  lemma RebindConsistent(fs: Fs, path: Path, binding: Option<Inode>)
    requires Consistent(fs)
    requires binding.Some? ==> binding.value in fs.nodes
    requires binding.Some? ==> Ancestors(Service(path.service)) <= fs.directories.Keys
    ensures Consistent(Rebind(fs, path, binding))
  {
    var after := Rebind(fs, path, binding);
    forall p <- after.candidates
      ensures Binding(after, p) in after.candidates[p]
      ensures forall b <- after.candidates[p] | b.Some? ::
        b.value in fs.nodes && Ancestors(Service(p.service)) <= fs.directories.Keys
    {
      if p != path {
        assert Binding(after, p) == Binding(fs, p);
      }
    }
  }

  lemma InstallConsistent(fs: Fs, handle: Handle)
    requires Consistent(fs)
    requires HandleConsistent(fs, handle)
    ensures Consistent(Install(fs, handle).0)
  {
    var after := Install(fs, handle).0;
    forall d <- after.open
      ensures d < after.nextDescriptor && HandleConsistent(after, after.open[d])
    {
      if d != fs.nextDescriptor {
        assert d in fs.open;
      }
    }
    forall p <- after.candidates
      ensures Binding(after, p) in after.candidates[p]
    {
      assert Binding(after, p) == Binding(fs, p);
    }
  }

  /** The steps that touch neither names nor directories: only nodes grow or change in place. */
  lemma NodesConsistent(fs: Fs, after: Fs)
    requires Consistent(fs)
    requires after.createMode == fs.createMode
    requires after.entries == fs.entries && after.candidates == fs.candidates
    requires fs.directories.Keys <= after.directories.Keys
    requires fs.nodes.Keys <= after.nodes.Keys && fs.nextInode <= after.nextInode
    requires forall inode <- after.nodes :: inode < after.nextInode
    requires forall inode <- after.synced :: inode in after.nodes
    requires after.nextDescriptor == fs.nextDescriptor
    requires forall d <- after.open ::
      && d in fs.open
      && (match fs.open[d]
          case DirectoryHandle(_) => after.open[d] == fs.open[d]
          case FileHandle(inode, _, _) => after.open[d].FileHandle? && after.open[d].inode == inode)
    ensures Consistent(after)
  {
    forall p <- after.candidates
      ensures Binding(after, p) in after.candidates[p]
    {
      assert Binding(after, p) == Binding(fs, p);
    }
    forall d <- after.open
      ensures d < after.nextDescriptor && HandleConsistent(after, after.open[d])
    {
      assert HandleConsistent(fs, fs.open[d]);
    }
  }

  function Grown(fs: Fs): Fs {
    fs.(nodes := fs.nodes[fs.nextInode := Node(Meta(Regular, fs.uid, fs.createMode), [])],
        synced := fs.synced - {fs.nextInode},
        nextInode := fs.nextInode + 1)
  }

  lemma GrownConsistent(fs: Fs)
    requires Consistent(fs)
    ensures Consistent(Grown(fs))
  {
    NodesConsistent(fs, Grown(fs));
  }

  lemma CreateConsistent(fs: Fs, path: Path, problem: Option<Error>)
    requires Consistent(fs)
    requires Ancestors(Service(path.service)) <= fs.directories.Keys
    ensures Consistent(CreateNew(fs, path, problem).0)
  {
    hide Consistent;
    if problem.None? && path !in fs.entries {
      var inode := fs.nextInode;
      GrownConsistent(fs);
      RebindConsistent(Grown(fs), path, Some(inode));
      InstallConsistent(Rebind(Grown(fs), path, Some(inode)), FileHandle(inode, true, 0));
      assert CreateNew(fs, path, problem).0 == Install(Rebind(Grown(fs), path, Some(inode)), FileHandle(inode, true, 0)).0;
    }
  }

  lemma RenameConsistent(fs: Fs, from: Path, to: Path, problem: Option<Error>)
    requires Consistent(fs)
    requires Ancestors(Service(to.service)) <= fs.directories.Keys
    ensures Consistent(RenameEntry(fs, from, to, problem).0)
  {
    if problem.None? && from in fs.entries {
      RebindConsistent(fs, to, Some(fs.entries[from]));
      RebindConsistent(Rebind(fs, to, Some(fs.entries[from])), from, None);
    }
  }

  lemma SyncConsistent(fs: Fs, descriptor: int, problem: Option<Error>)
    requires Consistent(fs)
    requires Callable(fs, Fsync(descriptor))
    ensures Consistent(SyncFile(fs, descriptor, problem).0)
  {
    var after := SyncFile(fs, descriptor, problem).0;
    if problem.None? {
      match fs.open[descriptor]
      case FileHandle(_, _, _) => NodesConsistent(fs, after);
      case DirectoryHandle(_) =>
        forall p <- after.candidates
          ensures Binding(after, p) in after.candidates[p]
        {
          assert Binding(after, p) == Binding(fs, p);
        }
    }
  }

  lemma OpenDirectoryConsistent(fs: Fs, directory: Directory, problem: Option<Error>)
    requires Consistent(fs)
    requires Ancestors(directory) - {directory} <= fs.directories.Keys
    ensures Consistent(OpenDirectory(fs, directory, problem).0)
  {
    if OpenDirectory(fs, directory, problem).0 != fs {
      assert Ancestors(directory) <= fs.directories.Keys;
      InstallConsistent(fs, DirectoryHandle(directory));
    }
  }

  lemma WithDirectoryConsistent(fs: Fs, directory: Directory)
    requires Consistent(fs)
    ensures Consistent(WithDirectory(fs, directory))
  {
    NodesConsistent(fs, WithDirectory(fs, directory));
  }

  lemma PrepareConsistent(fs: Fs, service: string, problem: Option<Error>, limit: nat)
    requires Consistent(fs)
    ensures Consistent(Prepare(fs, service, problem, limit).0)
  {
    var root := WithDirectory(fs, Root);
    WithDirectoryConsistent(fs, Root);
    var version := WithDirectory(root, Version);
    WithDirectoryConsistent(root, Version);
    WithDirectoryConsistent(version, Service(service));
    assert Prepare(fs, service, problem, limit).0 in {fs, root, version, WithDirectory(version, Service(service))};
  }

  lemma EntryCallConsistent(fs: Fs, call: Call, fault: Disturbance)
    requires Consistent(fs)
    requires Callable(fs, call)
    requires call.OpenFile? || call.CreateFile? || call.Rename? || call.Unlink?
    ensures Consistent(Exec(fs, call, fault).0)
  {
    var after := Exec(fs, call, fault).0;
    assert HandleConsistent(fs, fs.open[call.directory]);
    match call
    case OpenFile(directory, name) =>
      if after != fs {
        InstallConsistent(fs, FileHandle(fs.entries[PathOf(fs, directory, name)], false, 0));
      }
    case CreateFile(directory, name) => CreateConsistent(fs, PathOf(fs, directory, name), fault.error);
    case Rename(directory, from, to) =>
      RenameConsistent(fs, PathOf(fs, directory, from), PathOf(fs, directory, to), fault.error);
    case Unlink(directory, name) =>
      if after != fs {
        RebindConsistent(fs, PathOf(fs, directory, name), None);
      }
  }

  /** Every call keeps the state consistent. */
  lemma ExecConsistent(fs: Fs, call: Call, fault: Disturbance)
    requires Consistent(fs)
    requires Callable(fs, call)
    ensures Consistent(Exec(fs, call, fault).0)
  {
    match call
    case PrepareDirectories(service) => PrepareConsistent(fs, service, fault.error, Allowance(fault, 3));
    case OpenRoot => OpenDirectoryConsistent(fs, Root, fault.error);
    case OpenVersion(root) =>
      assert HandleConsistent(fs, fs.open[root]);
      OpenDirectoryConsistent(fs, Version, fault.error);
    case OpenService(version, service) =>
      assert HandleConsistent(fs, fs.open[version]);
      OpenDirectoryConsistent(fs, Service(service), fault.error);
    case OpenFile(_, _) => EntryCallConsistent(fs, call, fault);
    case CreateFile(_, _) => EntryCallConsistent(fs, call, fault);
    case Rename(_, _, _) => EntryCallConsistent(fs, call, fault);
    case Unlink(_, _) => EntryCallConsistent(fs, call, fault);
    case Fsync(descriptor) => SyncConsistent(fs, descriptor, fault.error);
    case Read(descriptor) => NodesConsistent(fs, ReadFile(fs, descriptor, fault).0);
    case Write(descriptor, contents) => NodesConsistent(fs, WriteFile(fs, descriptor, contents, fault).0);
    case Fchmod(_, _) => NodesConsistent(fs, Exec(fs, call, fault).0);
    case Close(_) => NodesConsistent(fs, Exec(fs, call, fault).0);
    case ValidateMount =>
    case ReadRandom =>
    case Fstat(_) =>
  }
}
