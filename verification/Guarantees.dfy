/** Every system call an operation makes keeps to the guarantee of `Threads`. */
module Guarantees {
  import opened Wrappers
  import opened Errors
  import opened Filesystem
  import opened Program
  import opened Invariants
  import opened LinuxSystem
  import opened Machine
  import opened Threads
  import Layout

  /** The first two clauses of the guarantee, on descriptors alone. */
  ghost predicate DescriptorsGuaranteed(fs: Fs, after: Fs, op: Op, point: Point) {
    && (forall d <- fs.open | d !in Owns(op, point) :: d in after.open && after.open[d] == fs.open[d])
    && (forall d <- after.open ::
          if d in fs.open then
            && after.open[d].FileHandle? == fs.open[d].FileHandle?
            && (after.open[d].FileHandle? ==>
                  after.open[d].inode == fs.open[d].inode && after.open[d].writable == fs.open[d].writable)
          else
            after.open[d].FileHandle? ==>
              if after.open[d].writable then
                after.open[d].inode == fs.nextInode
              else
                Binding(fs, PathFor(op)) == Some(after.open[d].inode))
  }

  lemma NamesSame(fs: Fs, after: Fs)
    requires after.entries == fs.entries && after.candidates == fs.candidates
    ensures forall path: Path :: Binding(after, path) == Binding(fs, path)
    ensures forall path: Path :: Candidates(after, path) == Candidates(fs, path)
  {
    forall path: Path
      ensures Binding(after, path) == Binding(fs, path)
    {
    }
  }

  lemma OnlyDescriptorsGuaranteed(fs: Fs, after: Fs, op: Op, point: Point)
    requires after == fs.(open := after.open, nextDescriptor := after.nextDescriptor, directories := after.directories)
    requires DescriptorsGuaranteed(fs, after, op, point)
    ensures Guarantee(fs, after, op, point)
  {
    hide PathFor, Owns, TouchedTemporary, TemporaryInode;
    NamesSame(fs, after);
  }

  lemma NodeGuaranteed(fs: Fs, after: Fs, op: Op, point: Point, inode: Inode)
    requires TemporaryInode(fs, op, point) == Some(inode) && !point.AtRename? && !Unwritten(fs, inode)
    requires after == fs.(nodes := after.nodes, synced := after.synced)
    requires inode in fs.nodes && inode in after.nodes && after.nodes == fs.nodes[inode := after.nodes[inode]]
    requires fs.synced - {inode} <= after.synced
    ensures Guarantee(fs, after, op, point)
  {
    hide PathFor, Owns, TouchedTemporary, TemporaryInode, Unwritten;
    NamesSame(fs, after);
  }

  lemma RebindNames(fs: Fs, path: Path, binding: Option<Inode>)
    ensures forall other: Path | other != path ::
      && Binding(Rebind(fs, path, binding), other) == Binding(fs, other)
      && Candidates(Rebind(fs, path, binding), other) == Candidates(fs, other)
    ensures Binding(Rebind(fs, path, binding), path) == binding
    ensures Candidates(Rebind(fs, path, binding), path) == Candidates(fs, path) + {binding}
  {
  }

  lemma CreateNames(fs: Fs, path: Path)
    requires Consistent(fs) && path !in fs.entries
    ensures var after := CreateNew(fs, path, None).0;
            && after == fs.(entries := after.entries, nodes := after.nodes, open := after.open,
                            candidates := after.candidates, synced := after.synced, nextInode := fs.nextInode + 1,
                            nextDescriptor := fs.nextDescriptor + 1)
            && after.synced == fs.synced && fs.nextInode !in fs.nodes && fs.nextDescriptor !in fs.open
            && after.nodes == fs.nodes[fs.nextInode := Node(Meta(Regular, fs.uid, fs.createMode), [])]
            && after.open == fs.open[fs.nextDescriptor := FileHandle(fs.nextInode, true, 0)]
            && Binding(after, path) == Some(fs.nextInode)
            && Candidates(after, path) == Candidates(fs, path) + {Some(fs.nextInode)}
            && forall other: Path | other != path ::
                 Binding(after, other) == Binding(fs, other) && Candidates(after, other) == Candidates(fs, other)
  {
    RebindNames(fs, path, Some(fs.nextInode));
    NamesSame(Rebind(fs, path, Some(fs.nextInode)), CreateNew(fs, path, None).0);
  }

  lemma CreateFails(fs: Fs, path: Path, problem: Option<Error>)
    ensures problem.Some? || path in fs.entries ==> CreateNew(fs, path, problem).0 == fs
    ensures problem.None? ==> CreateNew(fs, path, problem) == CreateNew(fs, path, None)
  {
  }

  lemma CreateGuaranteed(fs: Fs, op: Op, point: Point, problem: Option<Error>)
    requires Consistent(fs)
    requires point.AtCreate? && Path(op.service, point.temporary) != PathFor(op)
    ensures Guarantee(fs, CreateNew(fs, Path(op.service, point.temporary), problem).0, op, point)
  {
    hide PathFor, Consistent, Binding, Candidates, Owns, TemporaryInode, CreateNew;
    var path := Path(op.service, point.temporary);
    CreateFails(fs, path, problem);
    if problem.Some? || path in fs.entries {
      OnlyDescriptorsGuaranteed(fs, fs, op, point);
    } else {
      CreateNames(fs, path);
    }
  }

  lemma RenameGuaranteed(fs: Fs, op: Op, point: Point, problem: Option<Error>)
    requires point.AtRename? && Path(op.service, point.temporary) != PathFor(op) && op.Set?
    ensures Guarantee(fs, RenameEntry(fs, Path(op.service, point.temporary), PathFor(op), problem).0, op, point)
  {
    var path := Path(op.service, point.temporary);
    var after := RenameEntry(fs, path, PathFor(op), problem).0;
    hide PathFor;
    if after == fs {
      OnlyDescriptorsGuaranteed(fs, after, op, point);
    } else {
      RebindNames(fs, PathFor(op), Some(fs.entries[path]));
      RebindNames(Rebind(fs, PathFor(op), Some(fs.entries[path])), path, None);
    }
  }

  lemma UnlinkRebinds(fs: Fs, path: Path, problem: Option<Error>)
    ensures UnlinkEntry(fs, path, problem).0 == fs || UnlinkEntry(fs, path, problem).0 == Rebind(fs, path, None)
  {
  }

  lemma UnlinkGuaranteed(fs: Fs, op: Op, point: Point, path: Path, problem: Option<Error>)
    requires (point.AtUnlink? && path == PathFor(op) && !op.Get?)
          || (point.AtCleanupUnlink? && path == Path(op.service, point.temporary))
    ensures Guarantee(fs, UnlinkEntry(fs, path, problem).0, op, point)
  {
    hide PathFor, Binding, Candidates, Owns, UnlinkEntry;
    var after := UnlinkEntry(fs, path, problem).0;
    UnlinkRebinds(fs, path, problem);
    if after == fs {
      OnlyDescriptorsGuaranteed(fs, after, op, point);
    } else {
      RebindNames(fs, path, None);
    }
  }

  lemma SyncNames(fs: Fs, descriptor: int, problem: Option<Error>)
    requires Consistent(fs) && Callable(fs, Fsync(descriptor))
    ensures var after := SyncFile(fs, descriptor, problem).0;
            && after == fs.(candidates := after.candidates, synced := after.synced)
            && fs.synced <= after.synced
            && forall path: Path ::
                 && Binding(after, path) == Binding(fs, path)
                 && (Candidates(after, path) == Candidates(fs, path) || Candidates(after, path) == {Binding(fs, path)})
                 && Binding(fs, path) in Candidates(fs, path)
  {
  }

  lemma SyncGuaranteed(fs: Fs, op: Op, point: Point, descriptor: int, problem: Option<Error>)
    requires Consistent(fs) && Callable(fs, Fsync(descriptor))
    ensures Guarantee(fs, SyncFile(fs, descriptor, problem).0, op, point)
  {
    hide PathFor, Owns, TouchedTemporary, TemporaryInode, Consistent, Callable, SyncFile, Binding, Candidates;
    SyncNames(fs, descriptor, problem);
  }

  lemma OwnFile(fs: Fs, op: Op, point: Point)
    requires HoldsDescriptors(fs, op, point) && HoldsTemporary(fs, op, point)
    requires Temporary(op, point).Some? && File(point).Some?
    ensures IsWritable(fs, File(point).value)
    ensures TemporaryInode(fs, op, point) == Some(fs.open[File(point).value].inode)
  {
  }

  lemma WriteIsPossible(fs: Fs, op: Op, point: Point)
    requires point.AtWrite? && RightKind(op, point)
    requires HoldsDescriptors(fs, op, point) && HoldsContent(fs, op, point) && HoldsTemporary(fs, op, point)
    ensures Callable(fs, CallOf(op, point))
  {
    hide Private, Layout.IsCredentialName, SecureMeta;
  }

  lemma HeldFile(fs: Fs, op: Op, point: Point)
    requires HoldsDescriptors(fs, op, point) && File(point).Some?
    ensures IsFile(fs, File(point).value)
    ensures fs.open[File(point).value].writable == Temporary(op, point).Some?
  {
    hide Distinct, Directories, File, Temporary, IsFile;
  }

  lemma HeldDirectory(fs: Fs, op: Op, point: Point, d: int, directory: Directory)
    requires HoldsDescriptors(fs, op, point)
    requires d in Directories(op, point) && Directories(op, point)[d] == directory
    ensures IsDirectory(fs, d, directory)
  {
    hide Distinct, File, Temporary, IsFile;
  }

  lemma FileCallIsPossible(fs: Fs, op: Op, point: Point)
    requires !point.Finished? && !point.AtWrite? && RightKind(op, point)
    requires HoldsDescriptors(fs, op, point) && File(point).Some?
    ensures Callable(fs, CallOf(op, point))
  {
    hide HoldsDescriptors, IsFile, Layout.IsCredentialName;
    HeldFile(fs, op, point);
    FileIsOpen(fs, File(point).value);
  }

  lemma FileIsOpen(fs: Fs, d: int)
    requires IsFile(fs, d)
    ensures d in fs.open
  {
  }

  lemma DirectoryCallIsPossible(fs: Fs, op: Op, point: Point)
    requires !point.Finished? && HoldsDescriptors(fs, op, point) && File(point).None?
    ensures Callable(fs, CallOf(op, point))
  {
    hide HoldsDescriptors, IsFile, Layout.IsCredentialName;
    if point.AtVersion? {
      HeldDirectory(fs, op, point, point.root, Root);
    } else if point.AtService? {
      HeldDirectory(fs, op, point, point.version, Version);
    } else if point.AtCloseVersion? || point.AtCloseRoot? {
      ClosingLevel(fs, op, point);
    } else if !point.AtMount? && !point.AtPrepare? && !point.AtRoot? {
      HeldDirectory(fs, op, point, point.directory, Service(op.service));
    }
  }

  lemma ClosingLevel(fs: Fs, op: Op, point: Point)
    requires HoldsDescriptors(fs, op, point)
    ensures point.AtCloseVersion? ==> point.version in fs.open
    ensures point.AtCloseRoot? ==> point.root in fs.open
  {
  }

  /** What every control point knows about the descriptors its next call names. */
  lemma CallIsPossible(fs: Fs, op: Op, point: Point)
    requires !point.Finished? && RightKind(op, point)
    requires HoldsDescriptors(fs, op, point) && HoldsContent(fs, op, point) && HoldsTemporary(fs, op, point)
    ensures Callable(fs, CallOf(op, point))
  {
    hide HoldsDescriptors, HoldsContent, HoldsTemporary, RightKind, Callable, CallOf;
    if point.AtWrite? {
      WriteIsPossible(fs, op, point);
    } else if File(point).Some? {
      FileCallIsPossible(fs, op, point);
    } else {
      DirectoryCallIsPossible(fs, op, point);
    }
  }

  lemma InPlaceGuaranteed(fs: Fs, op: Op, point: Point, fault: Disturbance)
    requires Consistent(fs) && !point.Finished? && RightKind(op, point)
    requires HoldsDescriptors(fs, op, point) && HoldsTemporary(fs, op, point)
    requires Callable(fs, CallOf(op, point))
    requires point.AtChmod? || point.AtWrite?
    ensures Guarantee(fs, Exec(fs, CallOf(op, point), fault).0, op, point)
  {
    hide Consistent, Guarantee, HoldsDescriptors, HoldsTemporary, PathFor, IsWritable, TemporaryInode, Unwritten;
    OwnFile(fs, op, point);
    var after := Exec(fs, CallOf(op, point), fault).0;
    ConsistentHandle(fs, File(point).value);
    var inode := fs.open[File(point).value].inode;
    if after == fs {
      OnlyDescriptorsGuaranteed(fs, after, op, point);
    } else {
      WriterUnwrites(fs, File(point).value);
      NodeGuaranteed(fs, after, op, point, inode);
    }
  }

  lemma WriterUnwrites(fs: Fs, descriptor: int)
    requires IsWritable(fs, descriptor)
    ensures !Unwritten(fs, fs.open[descriptor].inode)
  {
  }

  lemma ConsistentHandle(fs: Fs, descriptor: int)
    requires IsWritable(fs, descriptor)
    ensures descriptor in fs.open && fs.open[descriptor].FileHandle? && fs.open[descriptor].inode in fs.nodes
  {
  }

  lemma OtherName(op: Op, name: string)
    requires !Layout.IsCredentialName(name)
    ensures Path(op.service, name) != PathFor(op)
    ensures Layout.IsCredentialName(PathFor(op).name)
  {
  }

  lemma InstallGuaranteed(fs: Fs, handle: Handle, op: Op, point: Point)
    requires Consistent(fs)
    requires handle.FileHandle? ==> !handle.writable && Binding(fs, PathFor(op)) == Some(handle.inode)
    ensures Guarantee(fs, Install(fs, handle).0, op, point)
  {
    hide Guarantee, PathFor, Binding, Owns;
    OnlyDescriptorsGuaranteed(fs, Install(fs, handle).0, op, point);
  }

  lemma OpeningGuaranteed(fs: Fs, op: Op, point: Point, directory: Directory, problem: Option<Error>)
    requires Consistent(fs)
    ensures Guarantee(fs, OpenDirectory(fs, directory, problem).0, op, point)
  {
    hide Guarantee, Consistent, PathFor, SecureDirectory, Install;
    OnlyDescriptorsGuaranteed(fs, fs, op, point);
    InstallGuaranteed(fs, DirectoryHandle(directory), op, point);
  }

  lemma OpenFileGuaranteed(fs: Fs, op: Op, point: Point, problem: Option<Error>)
    requires Consistent(fs)
    ensures Guarantee(fs, OpenExisting(fs, PathFor(op), problem).0, op, point)
  {
    hide Guarantee, Consistent, PathFor, Install;
    OnlyDescriptorsGuaranteed(fs, fs, op, point);
    if PathFor(op) in fs.entries {
      InstallGuaranteed(fs, FileHandle(fs.entries[PathFor(op)], false, 0), op, point);
    }
  }

  lemma PreparingGuaranteed(fs: Fs, op: Op, fault: Disturbance)
    ensures Guarantee(fs, Exec(fs, PrepareDirectories(op.service), fault).0, op, AtPrepare)
  {
    hide Guarantee, Prepare, PathFor;
    PrepareEffects(fs, op.service, fault.error, Allowance(fault, 3));
    OnlyDescriptorsGuaranteed(fs, Exec(fs, PrepareDirectories(op.service), fault).0, op, AtPrepare);
  }

  lemma ClosingGuaranteed(fs: Fs, op: Op, point: Point, descriptor: int, fault: Disturbance)
    requires descriptor in fs.open && descriptor in Owns(op, point)
    ensures Guarantee(fs, Exec(fs, Close(descriptor), fault).0, op, point)
  {
    hide Guarantee, PathFor, Owns;
    OnlyDescriptorsGuaranteed(fs, Exec(fs, Close(descriptor), fault).0, op, point);
  }

  lemma ReadingGuaranteed(fs: Fs, op: Op, point: Point, descriptor: int, fault: Disturbance)
    requires Callable(fs, Read(descriptor)) && descriptor in Owns(op, point)
    ensures Guarantee(fs, ReadFile(fs, descriptor, fault).0, op, point)
  {
    hide Guarantee, PathFor, Owns;
    OnlyDescriptorsGuaranteed(fs, ReadFile(fs, descriptor, fault).0, op, point);
  }

  /** The descriptor that a point closes is its own. */
  lemma ClosesOwn(op: Op, point: Point)
    requires !point.Finished? && CallOf(op, point).Close?
    ensures CallOf(op, point).descriptor in Owns(op, point)
  {
  }

  lemma EntryCallable(fs: Fs, op: Op, point: Point)
    requires HoldsDescriptors(fs, op, point)
    requires point.AtOpen? || point.AtCreate? || point.AtRename? || point.AtCleanupUnlink? || point.AtUnlink?
    ensures IsDirectory(fs, point.directory, Service(op.service))
    ensures Callable(fs, CallOf(op, point))
  {
    hide HoldsDescriptors, Layout.Hex;
    HeldDirectory(fs, op, point, point.directory, Service(op.service));
  }

  /** The calls that bind or unbind a name. */
  lemma EntryGuaranteed(fs: Fs, op: Op, point: Point, fault: Disturbance)
    requires Consistent(fs) && RightKind(op, point)
    requires HoldsDescriptors(fs, op, point)
    requires point.AtOpen? || point.AtCreate? || point.AtRename? || point.AtCleanupUnlink? || point.AtUnlink?
    ensures Callable(fs, CallOf(op, point))
    ensures Guarantee(fs, Exec(fs, CallOf(op, point), fault).0, op, point)
  {
    hide Guarantee, Consistent, Layout.IsCredentialName, OpenExisting, CreateNew, RenameEntry, UnlinkEntry, Layout.Hex,
         HoldsDescriptors, Directories, IsFile, Owns;
    EntryCallable(fs, op, point);
    match point
    case AtOpen(_) => OpenFileGuaranteed(fs, op, point, fault.error);
    case AtCreate(_, _, _, temporary) =>
      OtherName(op, temporary);
      CreateGuaranteed(fs, op, point, fault.error);
    case AtRename(_, _, temporary) =>
      OtherName(op, temporary);
      RenameGuaranteed(fs, op, point, fault.error);
    case AtCleanupUnlink(_, temporary, _) =>
      UnlinkGuaranteed(fs, op, point, Path(op.service, temporary), fault.error);
    case AtUnlink(_, _) => UnlinkGuaranteed(fs, op, point, PathFor(op), fault.error);
  }

  /** Main: every call of every operation keeps to its guarantee, whatever fault hits it. */
  lemma StepGuaranteed(fs: Fs, op: Op, point: Point, fault: Disturbance)
    requires Consistent(fs) && !point.Finished? && RightKind(op, point)
    requires HoldsDescriptors(fs, op, point) && HoldsTemporary(fs, op, point)
    requires Callable(fs, CallOf(op, point))
    ensures Guarantee(fs, Exec(fs, CallOf(op, point), fault).0, op, point)
  {
    hide Guarantee, Consistent, HoldsTemporary, HoldsDescriptors, PathFor, Layout.IsCredentialName, Owns, Callable,
         OpenDirectory, SyncFile, ReadFile, Prepare, RightKind;
    if CallOf(op, point).Close? {
      ClosesOwn(op, point);
      CallableClose(fs, CallOf(op, point).descriptor);
      ClosingGuaranteed(fs, op, point, CallOf(op, point).descriptor, fault);
    } else {
      match point
      case AtPrepare => PreparingGuaranteed(fs, op, fault);
      case AtRoot => OpeningGuaranteed(fs, op, point, Root, fault.error);
      case AtVersion(_) => OpeningGuaranteed(fs, op, point, Version, fault.error);
      case AtService(_, _) => OpeningGuaranteed(fs, op, point, Service(op.service), fault.error);
      case AtRead(_, descriptor, _) =>
        ReadsOwn(op, point);
        ReadingGuaranteed(fs, op, point, descriptor, fault);
      case AtChmod(_, _, _, _) => InPlaceGuaranteed(fs, op, point, fault);
      case AtWrite(_, _, _, _, _) => InPlaceGuaranteed(fs, op, point, fault);
      case AtSyncFile(_, _, _, descriptor) => SyncGuaranteed(fs, op, point, descriptor, fault.error);
      case AtSyncDirectory(directory) => SyncGuaranteed(fs, op, point, directory, fault.error);
      case AtMount => OnlyDescriptorsGuaranteed(fs, fs, op, point);
      case AtRandom(_, _, _) => OnlyDescriptorsGuaranteed(fs, fs, op, point);
      case AtStat(_, _) => OnlyDescriptorsGuaranteed(fs, fs, op, point);
      case _ => EntryGuaranteed(fs, op, point, fault);
    }
  }

  lemma CallableClose(fs: Fs, descriptor: int)
    requires Callable(fs, Close(descriptor))
    ensures descriptor in fs.open
  {
  }

  lemma ReadsOwn(op: Op, point: Point)
    requires point.AtRead?
    ensures point.descriptor in Owns(op, point)
  {
  }
}
