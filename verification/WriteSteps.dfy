/** The calls of Set and Delete that change the directory: the rest of `OwnSteps`. */
module WriteSteps {
  import opened Wrappers
  import opened Errors
  import opened Filesystem
  import opened Program
  import opened Invariants
  import opened LinuxSystem
  import opened Machine
  import opened Threads
  import opened Guarantees
  import opened Interference
  import opened OwnSteps
  import Layout

  /** The points at which a temporary is held. */
  lemma TemporaryOk(fs: Fs, op: Op, point: Point, trusted: bool)
    requires Temporary(op, point).Some? && RightKind(op, point) && HoldsDescriptors(fs, op, point)
    requires HoldsTemporary(fs, op, point) && HoldsContent(fs, op, point) && StillValidated(fs, op, point, trusted)
    ensures ThreadOk(fs, op, point, None, trusted)
  {
    hide RightKind, HoldsDescriptors, HoldsTemporary, HoldsContent, StillValidated, PathFor;
  }

  lemma CloseCheckedAdvances(fs: Fs, op: Op, point: Point, fault: Disturbance, trusted: bool)
    requires (trusted ==> Honest(fault)) && point.AtCloseChecked? && RightKind(op, point)
    requires HoldsDescriptors(fs, op, point) && StillValidated(fs, op, point, trusted)
    ensures Callable(fs, CallOf(op, point)) && Advances(fs, op, point, None, fault, trusted)
  {
    hide OperationError, PathFor, Is, Plain, ThreadOk, HoldsDescriptors, Directories, Explains;
    var next := if fault.error.Some? then
                  AtCloseDirectory(point.directory, Reject(op, fault.error.value))
                else if op.Set? then
                  AtRandom(point.directory, Some(point.inode), 0)
                else
                  AtUnlink(point.directory, point.inode);
    if fault.error.Some? {
      RejectExplained(op, fault.error.value, None, trusted);
    }
    ClosesFile(fs, op, point, next);
    PlainlyOk(fs.(open := fs.open - {point.descriptor}), op, next, None, trusted);
  }

  lemma RandomAdvances(fs: Fs, op: Op, point: Point, fault: Disturbance, trusted: bool)
    requires point.AtRandom? && RightKind(op, point)
    requires HoldsDescriptors(fs, op, point) && StillValidated(fs, op, point, trusted)
    ensures Callable(fs, CallOf(op, point)) && Advances(fs, op, point, None, fault, trusted)
  {
    hide OperationError, PathFor, Is, Plain, ThreadOk, HoldsDescriptors, Directories, Layout.IsCredentialName,
         Layout.TemporaryName;
    var outcome := Exec(fs, CallOf(op, point), fault).1;
    var next := Next(op, fs.uid, point, outcome);
    if outcome.Random? {
      Layout.NamesApart(op.digest, outcome.bytes);
    }
    HoldsDirectory(fs, op, point, next);
    PlainlyOk(fs, op, next, None, trusted);
  }

  lemma CreatedHolds(fs: Fs, op: Op, point: Point, next: Point)
    requires Consistent(fs) && point.AtCreate? && HoldsDescriptors(fs, op, point)
    requires Path(op.service, point.temporary) !in fs.entries
    requires next == AtChmod(point.directory, point.seen, point.temporary, fs.nextDescriptor)
    ensures HoldsDescriptors(CreateNew(fs, Path(op.service, point.temporary), None).0, op, next)
  {
    hide Consistent;
    CreateNames(fs, Path(op.service, point.temporary));
    hide CreateNew;
    assert point.directory in Directories(op, point);
  }

  lemma CreatedPrivate(fs: Fs, path: Path)
    requires Consistent(fs) && path !in fs.entries
    ensures Private(CreateNew(fs, path, None).0, fs.nextInode, path, Some(fs.nextDescriptor))
  {
    hide CreateNew;
    CreateNames(fs, path);
    var after := CreateNew(fs, path, None).0;
    forall other: Path | other != path
      ensures Some(fs.nextInode) !in Candidates(after, other)
    {
    }
  }

  lemma CreatedOk(fs: Fs, op: Op, point: Point, trusted: bool)
    requires Consistent(fs) && point.AtCreate? && RightKind(op, point)
    requires HoldsDescriptors(fs, op, point) && StillValidated(fs, op, point, trusted)
    requires Path(op.service, point.temporary) !in fs.entries
    ensures ThreadOk(CreateNew(fs, Path(op.service, point.temporary), None).0, op,
                     AtChmod(point.directory, point.seen, point.temporary, fs.nextDescriptor), None, trusted)
  {
    hide Consistent, CreateNew, HoldsDescriptors, ThreadOk, PathFor, Layout.IsCredentialName, Private, Candidates;
    var path := Path(op.service, point.temporary);
    var next := AtChmod(point.directory, point.seen, point.temporary, fs.nextDescriptor);
    OtherName(op, point.temporary);
    CreateNames(fs, path);
    CreatedHolds(fs, op, point, next);
    CreatedPrivate(fs, path);
    TemporaryOk(CreateNew(fs, path, None).0, op, next, trusted);
  }

  lemma CreateAdvances(fs: Fs, op: Op, point: Point, fault: Disturbance, trusted: bool)
    requires Consistent(fs) && point.AtCreate? && RightKind(op, point)
    requires HoldsDescriptors(fs, op, point) && StillValidated(fs, op, point, trusted)
    ensures Callable(fs, CallOf(op, point)) && Advances(fs, op, point, None, fault, trusted)
  {
    hide Consistent, OperationError, PathFor, Is, ThreadOk, HoldsDescriptors, Directories, Layout.IsCredentialName;
    var path := Path(op.service, point.temporary);
    HoldsDirectory(fs, op, point, point);
    var (after, outcome) := Exec(fs, CallOf(op, point), fault);
    if outcome.Opened? {
      CreatedOk(fs, op, point, trusted);
    } else {
      var next := Next(op, fs.uid, point, outcome);
      HoldsDirectory(fs, op, point, next);
      PlainlyOk(fs, op, next, None, trusted);
    }
  }

  /** The same temporary, still open, whatever is written to it. */
  lemma TemporaryStays(fs: Fs, after: Fs, op: Op, point: Point, next: Point)
    requires HoldsDescriptors(fs, op, point) && HoldsTemporary(fs, op, point)
    requires Temporary(op, point).Some? && Temporary(op, next) == Temporary(op, point)
    requires File(point).Some? && File(next) == File(point)
    requires next.directory == point.directory
    requires after == fs.(nodes := after.nodes, synced := after.synced) && fs.nodes.Keys <= after.nodes.Keys
    ensures HoldsDescriptors(after, op, next) && HoldsTemporary(after, op, next)
    ensures Binding(after, PathFor(op)) == Binding(fs, PathFor(op))
  {
    hide PathFor;
    NamesSame(fs, after);
    assert Directories(op, point) == map[point.directory := Service(op.service)];
    assert Directories(op, next) == map[point.directory := Service(op.service)];
  }

  lemma ChmodAdvances(fs: Fs, op: Op, point: Point, fault: Disturbance, trusted: bool)
    requires point.AtChmod? && RightKind(op, point)
    requires HoldsDescriptors(fs, op, point) && HoldsTemporary(fs, op, point) && HoldsContent(fs, op, point)
    requires StillValidated(fs, op, point, trusted)
    ensures Callable(fs, CallOf(op, point)) && Advances(fs, op, point, None, fault, trusted)
  {
    hide PathFor, Is, ThreadOk, HoldsDescriptors, HoldsTemporary, Directories, Layout.IsCredentialName, IsWritable;
    OwnFile(fs, op, point);
    ConsistentHandle(fs, point.descriptor);
    var (after, outcome) := Exec(fs, CallOf(op, point), fault);
    var next := Next(op, fs.uid, point, outcome);
    TemporaryStays(fs, after, op, point, next);
    TemporaryOk(after, op, next, trusted);
  }

  lemma WriteAdvances(fs: Fs, op: Op, point: Point, fault: Disturbance, trusted: bool)
    requires point.AtWrite? && RightKind(op, point)
    requires HoldsDescriptors(fs, op, point) && HoldsTemporary(fs, op, point) && HoldsContent(fs, op, point)
    requires StillValidated(fs, op, point, trusted)
    ensures Callable(fs, CallOf(op, point)) && Advances(fs, op, point, None, fault, trusted)
  {
    hide PathFor, Is, ThreadOk, HoldsDescriptors, HoldsTemporary, Directories, Layout.IsCredentialName, IsWritable;
    OwnFile(fs, op, point);
    ConsistentHandle(fs, point.descriptor);
    var (after, outcome) := Exec(fs, CallOf(op, point), fault);
    var next := Next(op, fs.uid, point, outcome);
    var before := Content(fs, fs.open[point.descriptor].inode);
    assert before + point.rest[..outcome.count] + point.rest[outcome.count..] == before + point.rest;
    TemporaryStays(fs, after, op, point, next);
    TemporaryOk(after, op, next, trusted);
  }

  lemma SyncFileAdvances(fs: Fs, op: Op, point: Point, fault: Disturbance, trusted: bool)
    requires point.AtSyncFile? && RightKind(op, point)
    requires HoldsDescriptors(fs, op, point) && HoldsTemporary(fs, op, point) && HoldsContent(fs, op, point)
    requires StillValidated(fs, op, point, trusted)
    ensures Callable(fs, CallOf(op, point)) && Advances(fs, op, point, None, fault, trusted)
  {
    hide PathFor, Is, ThreadOk, HoldsDescriptors, HoldsTemporary, Directories, Layout.IsCredentialName, IsWritable;
    OwnFile(fs, op, point);
    ConsistentHandle(fs, point.descriptor);
    IsOpenFile(fs, op, point);
    var (after, outcome) := Exec(fs, CallOf(op, point), fault);
    var next := Next(op, fs.uid, point, outcome);
    TemporaryStays(fs, after, op, point, next);
    TemporaryOk(after, op, next, trusted);
  }

  /** Closing the temporary leaves nothing open on it. */
  lemma TemporaryCloses(fs: Fs, op: Op, point: Point, next: Point)
    requires HoldsDescriptors(fs, op, point) && HoldsTemporary(fs, op, point)
    requires Temporary(op, point).Some? && Temporary(op, next) == Temporary(op, point)
    requires File(point).Some? && File(next).None? && next.directory == point.directory
    ensures File(point).value in fs.open
    ensures var after := fs.(open := fs.open - {File(point).value});
            && HoldsDescriptors(after, op, next) && HoldsTemporary(after, op, next)
            && Binding(after, PathFor(op)) == Binding(fs, PathFor(op))
  {
    hide PathFor;
    ClosesFile(fs, op, point, next);
    hide HoldsDescriptors;
    NamesSame(fs, fs.(open := fs.open - {File(point).value}));
  }

  lemma CloseFileAdvances(fs: Fs, op: Op, point: Point, fault: Disturbance, trusted: bool)
    requires point.AtCloseFile? && RightKind(op, point)
    requires HoldsDescriptors(fs, op, point) && HoldsTemporary(fs, op, point) && HoldsContent(fs, op, point)
    requires StillValidated(fs, op, point, trusted)
    ensures Callable(fs, CallOf(op, point)) && Advances(fs, op, point, None, fault, trusted)
  {
    hide PathFor, Is, ThreadOk, HoldsDescriptors, HoldsTemporary, Directories, Layout.IsCredentialName;
    var next := if fault.error.Some? then
                  AtCleanupUnlink(point.directory, point.temporary, fault.error.value)
                else
                  AtRename(point.directory, point.seen, point.temporary);
    TemporaryCloses(fs, op, point, next);
    TemporaryOk(fs.(open := fs.open - {point.descriptor}), op, next, trusted);
  }

  lemma CleanupCloseAdvances(fs: Fs, op: Op, point: Point, fault: Disturbance, trusted: bool)
    requires point.AtCleanupClose? && RightKind(op, point)
    requires HoldsDescriptors(fs, op, point) && HoldsTemporary(fs, op, point)
    ensures Callable(fs, CallOf(op, point)) && Advances(fs, op, point, None, fault, trusted)
  {
    hide PathFor, Is, ThreadOk, HoldsDescriptors, HoldsTemporary, Directories, Layout.IsCredentialName, JoinOptional;
    var next := AtCleanupUnlink(point.directory, point.temporary, JoinOptional(point.problem, fault.error));
    TemporaryCloses(fs, op, point, next);
    TemporaryOk(fs.(open := fs.open - {point.descriptor}), op, next, trusted);
  }

  lemma RejectedSetOk(fs: Fs, op: Op, point: Point, trusted: bool)
    requires op.Set? && point.AtCloseDirectory? && point.reply.Rejected? && HoldsDescriptors(fs, op, point)
    ensures ThreadOk(fs, op, point, None, trusted)
  {
    hide HoldsDescriptors, ThreadOk, PathFor, Is, OperationError;
    PlainlyOk(fs, op, point, None, trusted);
  }

  lemma SameOpenHolds(fs: Fs, after: Fs, op: Op, point: Point)
    requires HoldsDescriptors(fs, op, point) && File(point).None? && after.open == fs.open
    ensures HoldsDescriptors(after, op, point)
  {
  }

  lemma CleanupUnlinkAdvances(fs: Fs, op: Op, point: Point, fault: Disturbance, trusted: bool)
    requires point.AtCleanupUnlink? && RightKind(op, point) && HoldsDescriptors(fs, op, point)
    ensures Callable(fs, CallOf(op, point)) && Advances(fs, op, point, None, fault, trusted)
  {
    hide PathFor, Is, ThreadOk, HoldsDescriptors, Directories, Layout.IsCredentialName, OperationError, AfterCleanup;
    HoldsDirectory(fs, op, point, point);
    var (after, outcome) := Exec(fs, CallOf(op, point), fault);
    var next := Next(op, fs.uid, point, outcome);
    HoldsDirectory(fs, op, point, next);
    SameOpenHolds(fs, after, op, next);
    RejectedSetOk(after, op, next, trusted);
  }

  lemma CommittedOk(fs: Fs, op: Op, point: Point, trusted: bool)
    requires point.AtSyncDirectory? && !op.Get? && HoldsDescriptors(fs, op, point) && Committed(fs, op)
    ensures ThreadOk(fs, op, point, Some(if op.Set? then Wrote(PathFor(op), op.value) else Removed(PathFor(op))), trusted)
  {
    hide HoldsDescriptors, Committed, PathFor;
  }

  lemma RenameCommits(fs: Fs, op: Op, point: Point)
    requires op.Set? && point.AtRename? && RightKind(op, point) && HoldsTemporary(fs, op, point) && HoldsContent(fs, op, point)
    ensures Path(op.service, point.temporary) in fs.entries
    ensures Committed(RenameEntry(fs, Path(op.service, point.temporary), PathFor(op), None).0, op)
  {
    hide PathFor, Layout.IsCredentialName, Private;
    OtherName(op, point.temporary);
    var path := Path(op.service, point.temporary);
    RebindNames(fs, PathFor(op), Some(fs.entries[path]));
    RebindNames(Rebind(fs, PathFor(op), Some(fs.entries[path])), path, None);
  }

  lemma RenameAdvances(fs: Fs, op: Op, point: Point, fault: Disturbance, trusted: bool)
    requires point.AtRename? && RightKind(op, point)
    requires HoldsDescriptors(fs, op, point) && HoldsTemporary(fs, op, point) && HoldsContent(fs, op, point)
    requires StillValidated(fs, op, point, trusted)
    ensures Callable(fs, CallOf(op, point)) && Advances(fs, op, point, None, fault, trusted)
  {
    hide Is, ThreadOk, HoldsDescriptors, HoldsTemporary, HoldsContent, Directories, Layout.IsCredentialName, Committed,
         Layout.Hex, Rebind;
    HoldsDirectory(fs, op, point, point);
    RenameCommits(fs, op, point);
    var (after, outcome) := Exec(fs, CallOf(op, point), fault);
    RebindKeepsOpen(fs, PathFor(op), Some(fs.entries[Path(op.service, point.temporary)]),
                    Path(op.service, point.temporary));
    if outcome.Done? {
      HoldsDirectory(fs, op, point, AtSyncDirectory(point.directory));
      SameOpenHolds(fs, after, op, AtSyncDirectory(point.directory));
      CommittedOk(after, op, AtSyncDirectory(point.directory), trusted);
    } else {
      var next := AtCleanupUnlink(point.directory, point.temporary, outcome.error);
      HoldsDirectory(fs, op, point, next);
      RenameFailedOk(fs, op, point, next, trusted);
    }
  }

  lemma RenameFailedOk(fs: Fs, op: Op, point: Point, next: Point, trusted: bool)
    requires point.AtRename? && RightKind(op, point) && HoldsTemporary(fs, op, point)
    requires next.AtCleanupUnlink? && next.temporary == point.temporary && HoldsDescriptors(fs, op, next)
    ensures ThreadOk(fs, op, next, None, trusted)
  {
    hide ThreadOk, HoldsDescriptors, PathFor, Layout.IsCredentialName, Private;
    TemporaryOk(fs, op, next, trusted);
  }

  lemma RebindKeepsOpen(fs: Fs, path: Path, binding: Option<Inode>, other: Path)
    ensures Rebind(fs, path, binding).open == fs.open
    ensures Rebind(Rebind(fs, path, binding), other, None).open == fs.open
  {
  }

  lemma UnlinkAdvances(fs: Fs, op: Op, point: Point, fault: Disturbance, trusted: bool)
    requires (trusted ==> Honest(fault)) && point.AtUnlink? && RightKind(op, point)
    requires HoldsDescriptors(fs, op, point) && StillValidated(fs, op, point, trusted)
    ensures Callable(fs, CallOf(op, point)) && Advances(fs, op, point, None, fault, trusted)
  {
    hide Is, ThreadOk, HoldsDescriptors, Directories, Layout.IsCredentialName, Layout.Hex, OperationError, Explains, Plain;
    HoldsDirectory(fs, op, point, point);
    var (after, outcome) := Exec(fs, CallOf(op, point), fault);
    if outcome.Done? {
      HoldsDirectory(fs, op, point, AtSyncDirectory(point.directory));
      SameOpenHolds(fs, after, op, AtSyncDirectory(point.directory));
      CommittedOk(after, op, AtSyncDirectory(point.directory), trusted);
    } else {
      var next := AtCloseDirectory(point.directory, Reject(op, outcome.error));
      RejectExplained(op, outcome.error, None, trusted);
      HoldsDirectory(fs, op, point, next);
      PlainlyOk(fs, op, next, None, trusted);
    }
  }

  lemma SyncedOk(fs: Fs, op: Op, point: Point, action: Option<Action>, trusted: bool)
    requires point.AtCloseDirectory? && !op.Get? && point.reply.Stored? && HoldsDescriptors(fs, op, point)
    requires Committed(fs, op) && Candidates(fs, PathFor(op)) == {Binding(fs, PathFor(op))}
    requires Explains(op, Stored, action, trusted)
    ensures ThreadOk(fs, op, point, action, trusted)
  {
    hide HoldsDescriptors, Committed, PathFor, Candidates, Binding, Explains;
  }

  lemma SyncDirectoryAdvances(fs: Fs, op: Op, point: Point, action: Option<Action>, fault: Disturbance, trusted: bool)
    requires Consistent(fs) && (trusted ==> Honest(fault)) && point.AtSyncDirectory? && RightKind(op, point)
    requires HoldsDescriptors(fs, op, point) && Outcomes(fs, op, point) && LogsRight(fs, op, point, action, trusted)
    ensures Callable(fs, CallOf(op, point)) && Advances(fs, op, point, action, fault, trusted)
  {
    hide Consistent, Is, ThreadOk, HoldsDescriptors, Directories, Layout.IsCredentialName, Layout.Hex, OperationError, Plain;
    HoldsDirectory(fs, op, point, point);
    var (after, outcome) := Exec(fs, CallOf(op, point), fault);
    var next := Next(op, fs.uid, point, outcome);
    HoldsDirectory(fs, op, point, next);
    if outcome.Done? {
      SameOpenHolds(fs, after, op, next);
      SyncedOk(after, op, next, action, trusted);
    } else {
      RejectExplained(op, outcome.error, action, trusted);
      PlainlyOk(fs, op, next, action, trusted);
    }
  }

  lemma CloseDirectoryCall(fs: Fs, op: Op, point: Point, action: Option<Action>, fault: Disturbance)
    requires point.AtCloseDirectory? && IsDirectory(fs, point.directory, Service(op.service))
    ensures Callable(fs, CallOf(op, point))
    ensures var (after, outcome) := Exec(fs, CallOf(op, point), fault);
            && after == fs.(open := fs.open - {point.directory})
            && Fits(CallOf(op, point), outcome)
            && Next(op, fs.uid, point, outcome) == Finished(point.reply)
            && NewAction(fs, op, point, outcome, action) == action
  {
    hide PathFor;
  }

  lemma FinishedOk(fs: Fs, after: Fs, op: Op, point: Point, action: Option<Action>, trusted: bool)
    requires point.AtCloseDirectory? && Outcomes(fs, op, point) && LogsRight(fs, op, point, action, trusted)
    requires after.entries == fs.entries && after.nodes == fs.nodes && after.uid == fs.uid && after.synced == fs.synced
    requires forall path: Path :: Binding(after, path) == Binding(fs, path) && Candidates(after, path) == Candidates(fs, path)
    ensures ThreadOk(after, op, Finished(point.reply), action, trusted)
  {
    hide PathFor, Explains, Candidates, Binding;
    FinishedHolds(after, op, point.reply);
  }

  lemma CloseDirectoryAdvances(fs: Fs, op: Op, point: Point, action: Option<Action>, fault: Disturbance, trusted: bool)
    requires point.AtCloseDirectory? && HoldsDescriptors(fs, op, point)
    requires Outcomes(fs, op, point) && LogsRight(fs, op, point, action, trusted)
    ensures Callable(fs, CallOf(op, point)) && Advances(fs, op, point, action, fault, trusted)
  {
    hide PathFor, Explains, HoldsDescriptors, Directories, Exec, Next, CallOf, Callable, ThreadOk, Fits, NewAction;
    var after := fs.(open := fs.open - {point.directory});
    HoldsDirectory(fs, op, point, point);
    CloseDirectoryCall(fs, op, point, action, fault);
    NamesSame(fs, after);
    FinishedOk(fs, after, op, point, action, trusted);
  }

  lemma FinishedHolds(fs: Fs, op: Op, reply: Reply)
    ensures HoldsDescriptors(fs, op, Finished(reply))
  {
  }

  /** Main: an operation's own call keeps what holds of it. */
  lemma StepAdvances(fs: Fs, op: Op, point: Point, action: Option<Action>, fault: Disturbance, trusted: bool)
    requires Consistent(fs) && (trusted ==> HonestAt(point, fault)) && !point.Finished?
    requires ThreadOk(fs, op, point, action, trusted)
    ensures Callable(fs, CallOf(op, point)) && Advances(fs, op, point, action, fault, trusted)
  {
    hide Consistent, Callable, CallOf, Advances, HoldsDescriptors, HoldsTemporary, HoldsContent, StillValidated,
         ReadsPrefix, Outcomes, Honest, HonestMount, RightKind, PathFor;
    NoEntryYet(fs, op, point, action, trusted);
    match point
    case AtMount => MountAdvances(fs, op, fault, trusted);
    case AtPrepare =>
      PrepareIsSet(op, point);
      PrepareAdvances(fs, op, fault, trusted);
    case AtRoot => RootAdvances(fs, op, fault, trusted);
    case AtVersion(_) => VersionAdvances(fs, op, point, fault, trusted);
    case AtService(_, _) => ServiceAdvances(fs, op, point, fault, trusted);
    case AtCloseVersion(_, _, _) => CloseVersionAdvances(fs, op, point, action, fault, trusted);
    case AtCloseRoot(_, _) => CloseRootAdvances(fs, op, point, action, fault, trusted);
    case AtOpen(_) => OpenAdvances(fs, op, point, fault, trusted);
    case AtStat(_, _) => StatAdvances(fs, op, point, action, fault, trusted);
    case AtCloseInvalid(_, _, _) => CloseInvalidAdvances(fs, op, point, action, fault, trusted);
    case AtRead(_, _, _) => ReadAdvances(fs, op, point, action, fault, trusted);
    case AtCloseRead(_, _, _, _) => CloseReadAdvances(fs, op, point, action, fault, trusted);
    case AtCloseChecked(_, _, _) => CloseCheckedAdvances(fs, op, point, fault, trusted);
    case AtRandom(_, _, _) => RandomAdvances(fs, op, point, fault, trusted);
    case AtCreate(_, _, _, _) => CreateAdvances(fs, op, point, fault, trusted);
    case AtChmod(_, _, _, _) => ChmodAdvances(fs, op, point, fault, trusted);
    case AtWrite(_, _, _, _, _) => WriteAdvances(fs, op, point, fault, trusted);
    case AtSyncFile(_, _, _, _) => SyncFileAdvances(fs, op, point, fault, trusted);
    case AtCloseFile(_, _, _, _) => CloseFileAdvances(fs, op, point, fault, trusted);
    case AtRename(_, _, _) => RenameAdvances(fs, op, point, fault, trusted);
    case AtSyncDirectory(_) => SyncDirectoryAdvances(fs, op, point, action, fault, trusted);
    case AtCleanupClose(_, _, _, _) => CleanupCloseAdvances(fs, op, point, fault, trusted);
    case AtCleanupUnlink(_, _, _) => CleanupUnlinkAdvances(fs, op, point, fault, trusted);
    case AtUnlink(_, _) => UnlinkAdvances(fs, op, point, fault, trusted);
    case AtCloseDirectory(_, _) => CloseDirectoryAdvances(fs, op, point, action, fault, trusted);
  }

  lemma PrepareIsSet(op: Op, point: Point)
    requires point.AtPrepare? && RightKind(op, point)
    ensures op.Set? && CallOf(op, point) == PrepareDirectories(op.service)
  {
  }

  /** The points at which the operation has not been logged. */
  predicate Unlogged(point: Point) {
    !point.AtCloseVersion? && !point.AtCloseRoot? && !point.AtStat? && !point.AtCloseInvalid? && !point.AtRead?
    && !point.AtCloseRead? && !point.AtSyncDirectory? && !point.AtCloseDirectory? && !point.Finished?
  }

  lemma NoEntryYet(fs: Fs, op: Op, point: Point, action: Option<Action>, trusted: bool)
    requires LogsRight(fs, op, point, action, trusted)
    ensures Unlogged(point) ==> action == None
    ensures !point.Finished? ==>
      (point.AtMount? ==> Callable(fs, CallOf(op, point))) && (point.AtPrepare? ==> Callable(fs, CallOf(op, point)))
      && (point.AtRoot? ==> Callable(fs, CallOf(op, point)))
  {
  }
}
