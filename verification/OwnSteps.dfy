/** One operation's own call takes what holds at its control point to what holds at the next. */
module OwnSteps {
  import opened Wrappers
  import opened Errors
  import opened Filesystem
  import opened Program
  import opened Invariants
  import opened LinuxSystem
  import opened Machine
  import opened Threads
  import opened Guarantees
  import opened Interference
  import Layout

  /** The operation's log entry after the call. */
  function NewAction(fs: Fs, op: Op, point: Point, outcome: Outcome, action: Option<Action>): Option<Action> {
    var entry := Linearize(fs, op, point, outcome);
    if entry.Some? then entry else action
  }

  /** `ThreadOk` at the next point. */
  ghost predicate Advances(fs: Fs, op: Op, point: Point, action: Option<Action>, fault: Disturbance, trusted: bool)
    requires !point.Finished? && Callable(fs, CallOf(op, point))
  {
    var (after, outcome) := Exec(fs, CallOf(op, point), fault);
    ExecFits(fs, CallOf(op, point), fault);
    ThreadOk(after, op, Next(op, fs.uid, point, outcome), NewAction(fs, op, point, outcome, action), trusted)
  }

  lemma RejectExplained(op: Op, err: Error, action: Option<Action>, trusted: bool)
    ensures Accounted(op, err, action, trusted) || (trusted ==> Plain(err)) ==> Explains(op, Reject(op, err), action, trusted)
  {
    NotFoundExactly(!op.Set?, err);
    TagIs(NotFound, err, InsecureFallback);
  }

  /** A refusal by the mount check keeps its category, so that it cannot pass for an absent name. */
  lemma RefusalExplained(op: Op, err: Error, trusted: bool)
    requires trusted ==> Plain(err) || IsCategory(err, InsecureFallback)
    ensures Explains(op, Reject(op, err), None, trusted)
  {
    RejectExplained(op, err, None, trusted);
    if IsCategory(err, InsecureFallback) {
      OperationErrorKeepsCause(!op.Set?, err, Portable(InsecureFallback));
    }
  }

  lemma InsecurePlain()
    ensures Plain(INSECURE)
  {
  }

  /** Points with no descriptor, temporary or log entry of their own. */
  lemma BareOk(fs: Fs, op: Op, point: Point, trusted: bool)
    requires point.AtRoot? || point.AtMount? || (point.AtPrepare? && op.Set?)
    ensures ThreadOk(fs, op, point, None, trusted)
  {
  }

  lemma FinishedOk(fs: Fs, op: Op, reply: Reply, action: Option<Action>, trusted: bool)
    requires reply.Rejected? && Explains(op, reply, action, trusted)
    ensures ThreadOk(fs, op, Finished(reply), action, trusted)
  {
  }

  lemma MountAdvances(fs: Fs, op: Op, fault: Disturbance, trusted: bool)
    requires trusted ==> HonestMount(fault)
    ensures Advances(fs, op, AtMount, None, fault, trusted)
  {
    hide ThreadOk, Explains, OperationError, Is;
    var outcome := Exec(fs, ValidateMount, fault).1;
    if outcome.Failed? {
      RefusalExplained(op, outcome.error, trusted);
      FinishedOk(fs, op, Reject(op, outcome.error), None, trusted);
    } else {
      BareOk(fs, op, if op.Set? then AtPrepare else AtRoot, trusted);
    }
  }

  lemma PrepareAdvances(fs: Fs, op: Op, fault: Disturbance, trusted: bool)
    requires (trusted ==> Honest(fault)) && op.Set?
    ensures Advances(fs, op, AtPrepare, None, fault, trusted)
  {
    hide ThreadOk, Explains, OperationError, Prepare, Plain;
    var (after, outcome) := Exec(fs, PrepareDirectories(op.service), fault);
    PrepareEffects(fs, op.service, fault.error, Allowance(fault, 3));
    InsecurePlain();
    if outcome.Failed? {
      RejectExplained(op, outcome.error, None, trusted);
      FinishedOk(after, op, Reject(op, outcome.error), None, trusted);
    } else {
      BareOk(after, op, AtRoot, trusted);
    }
  }

  /** A directory that cannot be opened: missing exactly when the error says so. */
  lemma OpeningAccounted(fs: Fs, op: Op, directory: Directory, fault: Disturbance)
    requires Honest(fault)
    ensures var outcome := OpenDirectory(fs, directory, fault.error).1;
            outcome.Failed? ==>
              && !IsCategory(outcome.error, NotFound)
              && (Is(outcome.error, Std(NotExist)) ==>
                    directory !in fs.directories && !IsCategory(outcome.error, InsecureFallback))
  {
    InsecurePlain();
    assert NotMisleading(Annotate(Errno(ENOENT))) && !IsCategory(Annotate(Errno(ENOENT)), InsecureFallback);
  }

  lemma MissingDirectory(fs: Fs, service: string)
    requires Consistent(fs)
    ensures Root !in fs.directories || Version !in fs.directories || Service(service) !in fs.directories ==>
      forall path <- fs.entries :: path.service != service
  {
  }

  /** Failing to open a level of the directories is accounted for by what is logged. */
  lemma LevelAccounted(fs: Fs, op: Op, directory: Directory, fault: Disturbance, trusted: bool)
    requires Consistent(fs) && (trusted ==> Honest(fault)) && directory in Ancestors(Service(op.service))
    ensures var outcome := OpenDirectory(fs, directory, fault.error).1;
            outcome.Failed? ==> Accounted(op, outcome.error, MissingEntry(fs, op, outcome), trusted)
  {
    hide Consistent, Is, OpenDirectory, PathFor;
    MissingDirectory(fs, op.service);
    ServiceOf(op);
    if trusted {
      OpeningAccounted(fs, op, directory, fault);
    }
  }

  lemma ServiceOf(op: Op)
    ensures PathFor(op).service == op.service
  {
  }

  lemma RootAdvances(fs: Fs, op: Op, fault: Disturbance, trusted: bool)
    requires Consistent(fs) && (trusted ==> Honest(fault))
    ensures Advances(fs, op, AtRoot, None, fault, trusted)
  {
    hide Consistent, Explains, OperationError, PathFor, Is, OpenDirectory, ThreadOk, Accounted, MissingEntry;
    var (after, outcome) := Exec(fs, OpenRoot, fault);
    LevelAccounted(fs, op, Root, fault, trusted);
    if outcome.Failed? {
      var action := MissingEntry(fs, op, outcome);
      RejectExplained(op, outcome.error, action, trusted);
      FinishedOk(after, op, Reject(op, outcome.error), action, trusted);
    } else {
      NothingMissing(fs, op, outcome);
      HoldsOpened(fs, op, fault);
      PlainlyOk(after, op, AtVersion(outcome.descriptor), None, trusted);
    }
  }

  lemma NothingMissing(fs: Fs, op: Op, outcome: Outcome)
    requires !outcome.Failed?
    ensures MissingEntry(fs, op, outcome) == None
  {
  }

  lemma HoldsOpened(fs: Fs, op: Op, fault: Disturbance)
    ensures var (after, outcome) := OpenDirectory(fs, Root, fault.error);
            outcome.Opened? ==> HoldsDescriptors(after, op, AtVersion(outcome.descriptor))
    ensures var outcome := OpenDirectory(fs, Root, fault.error).1; outcome.Opened? || outcome.Failed?
  {
    hide SecureDirectory;
  }

  /** The points where only descriptors, validation and the log entry matter. */
  predicate Plainly(op: Op, point: Point) {
    && Temporary(op, point).None?
    && !point.AtStat? && !point.AtRead? && !point.AtCloseRead? && !point.AtSyncDirectory?
    && (point.AtCloseDirectory? || point.Finished? ==> !point.reply.Stored?)
  }

  lemma PlainlyOk(fs: Fs, op: Op, point: Point, action: Option<Action>, trusted: bool)
    requires Plainly(op, point) && RightKind(op, point)
    requires HoldsDescriptors(fs, op, point) && StillValidated(fs, op, point, trusted) && LogsRight(fs, op, point, action, trusted)
    ensures ThreadOk(fs, op, point, action, trusted)
  {
    hide RightKind, HoldsDescriptors, StillValidated, LogsRight, Directories, PathFor;
  }

  lemma FreshDescriptor(fs: Fs)
    requires Consistent(fs)
    ensures fs.nextDescriptor !in fs.open
  {
  }

  lemma HoldsRoot(fs: Fs, op: Op, root: int)
    requires Consistent(fs) && HoldsDescriptors(fs, op, AtVersion(root))
    ensures IsDirectory(fs, root, Root)
    ensures HoldsDescriptors(fs, op, AtCloseRoot(root, Failure(INSECURE)))
    ensures HoldsDescriptors(Install(fs, DirectoryHandle(Version)).0, op, AtService(root, fs.nextDescriptor))
  {
    hide Consistent;
    FreshDescriptor(fs);
    assert root in Directories(op, AtVersion(root));
  }

  lemma FailureIrrelevant(fs: Fs, op: Op, root: int, err: Error, other: Error)
    requires HoldsDescriptors(fs, op, AtCloseRoot(root, Failure(err)))
    ensures HoldsDescriptors(fs, op, AtCloseRoot(root, Failure(other)))
  {
    assert Directories(op, AtCloseRoot(root, Failure(err))) == Directories(op, AtCloseRoot(root, Failure(other)));
  }

  lemma VersionAdvances(fs: Fs, op: Op, point: Point, fault: Disturbance, trusted: bool)
    requires Consistent(fs) && (trusted ==> Honest(fault))
    requires point.AtVersion? && HoldsDescriptors(fs, op, point)
    ensures Callable(fs, CallOf(op, point)) && Advances(fs, op, point, None, fault, trusted)
  {
    hide Consistent, Explains, OperationError, PathFor, Is, SecureDirectory, ThreadOk, HoldsDescriptors, Install,
         Directories;
    HoldsRoot(fs, op, point.root);
    OpensNext(fs, DirectoryHandle(Version));
    LevelAccounted(fs, op, Version, fault, trusted);
    var (after, outcome) := Exec(fs, CallOf(op, point), fault);
    var action := Linearize(fs, op, point, outcome);
    if outcome.Failed? {
      FailureIrrelevant(fs, op, point.root, INSECURE, outcome.error);
      PlainlyOk(fs, op, AtCloseRoot(point.root, Failure(outcome.error)), action, trusted);
    } else {
      PlainlyOk(after, op, AtService(point.root, fs.nextDescriptor), None, trusted);
    }
  }

  lemma OpensNext(fs: Fs, handle: Handle)
    ensures Install(fs, handle).1 == Opened(fs.nextDescriptor)
  {
  }

  lemma HoldsVersion(fs: Fs, op: Op, root: int, version: int, err: Error)
    requires Consistent(fs) && HoldsDescriptors(fs, op, AtService(root, version))
    ensures IsDirectory(fs, version, Version)
    ensures HoldsDescriptors(fs, op, AtCloseVersion(root, version, Failure(err)))
    ensures HoldsDescriptors(
              Install(fs, DirectoryHandle(Service(op.service))).0, op,
              AtCloseVersion(root, version, Success(fs.nextDescriptor)))
  {
    hide Consistent;
    FreshDescriptor(fs);
    var held := Directories(op, AtService(root, version));
    assert root in held && version in held;
  }

  lemma ServiceAdvances(fs: Fs, op: Op, point: Point, fault: Disturbance, trusted: bool)
    requires Consistent(fs) && (trusted ==> Honest(fault))
    requires point.AtService? && HoldsDescriptors(fs, op, point)
    ensures Callable(fs, CallOf(op, point)) && Advances(fs, op, point, None, fault, trusted)
  {
    hide Consistent, Explains, OperationError, PathFor, Is, SecureDirectory, ThreadOk, HoldsDescriptors, Install,
         Directories;
    HoldsVersion(fs, op, point.root, point.version, INSECURE);
    OpensNext(fs, DirectoryHandle(Service(op.service)));
    LevelAccounted(fs, op, Service(op.service), fault, trusted);
    var (after, outcome) := Exec(fs, CallOf(op, point), fault);
    if outcome.Failed? {
      HoldsVersion(fs, op, point.root, point.version, outcome.error);
      var action := Linearize(fs, op, point, outcome);
      PlainlyOk(fs, op, AtCloseVersion(point.root, point.version, Failure(outcome.error)), action, trusted);
    } else {
      PlainlyOk(after, op, AtCloseVersion(point.root, point.version, Success(fs.nextDescriptor)), None, trusted);
    }
  }

  lemma ClosesVersion(fs: Fs, op: Op, root: int, version: int, result: Result<int, Error>)
    requires HoldsDescriptors(fs, op, AtCloseVersion(root, version, result))
    ensures version in fs.open
    ensures HoldsDescriptors(fs.(open := fs.open - {version}), op, AtCloseRoot(root, result))
  {
    var held := Directories(op, AtCloseVersion(root, version, result));
    assert root in held && version in held;
    assert result.Success? ==> result.value in held;
  }

  lemma CloseVersionAdvances(fs: Fs, op: Op, point: Point, action: Option<Action>, fault: Disturbance, trusted: bool)
    requires point.AtCloseVersion? && HoldsDescriptors(fs, op, point) && LogsRight(fs, op, point, action, trusted)
    ensures Callable(fs, CallOf(op, point)) && Advances(fs, op, point, action, fault, trusted)
  {
    hide Explains, OperationError, PathFor, Is, Accounted, ThreadOk, HoldsDescriptors, Directories;
    ClosesVersion(fs, op, point.root, point.version, point.result);
    PlainlyOk(fs.(open := fs.open - {point.version}), op, AtCloseRoot(point.root, point.result), action, trusted);
  }

  lemma ClosesRoot(fs: Fs, op: Op, root: int, result: Result<int, Error>)
    requires HoldsDescriptors(fs, op, AtCloseRoot(root, result))
    ensures root in fs.open
    ensures result.Success? ==> HoldsDescriptors(fs.(open := fs.open - {root}), op, AtOpen(result.value))
  {
    var held := Directories(op, AtCloseRoot(root, result));
    assert root in held;
    assert result.Success? ==> result.value in held;
  }

  lemma CloseRootAdvances(fs: Fs, op: Op, point: Point, action: Option<Action>, fault: Disturbance, trusted: bool)
    requires point.AtCloseRoot? && HoldsDescriptors(fs, op, point) && LogsRight(fs, op, point, action, trusted)
    ensures Callable(fs, CallOf(op, point)) && Advances(fs, op, point, action, fault, trusted)
  {
    hide Explains, OperationError, PathFor, Is, Accounted, ThreadOk, HoldsDescriptors, Directories;
    ClosesRoot(fs, op, point.root, point.result);
    var after := fs.(open := fs.open - {point.root});
    match point.result
    case Failure(err) =>
      RejectExplained(op, err, action, trusted);
      FinishedOk(after, op, Reject(op, err), action, trusted);
    case Success(directory) => PlainlyOk(after, op, AtOpen(directory), action, trusted);
  }

  lemma OpenAccounted(fs: Fs, op: Op, fault: Disturbance)
    requires Honest(fault)
    ensures var outcome := OpenExisting(fs, PathFor(op), fault.error).1;
            outcome.Failed? ==>
              && !IsCategory(outcome.error, NotFound)
              && (Is(outcome.error, Std(NotExist)) ==>
                    PathFor(op) !in fs.entries && !IsCategory(outcome.error, InsecureFallback))
  {
    assert !IsCategory(Errno(ENOENT), InsecureFallback);
    assert NotMisleading(Errno(ENOENT)) && NotMisleading(Errno(ELOOP)) && !Is(Errno(ELOOP), Std(NotExist));
  }

  /** Any point that holds the service directory alone is as good as any other. */
  lemma HoldsDirectory(fs: Fs, op: Op, point: Point, other: Point)
    requires HoldsDescriptors(fs, op, point) && File(point).None? && File(other).None?
    requires HasDirectory(point) && HasDirectory(other) && other.directory == point.directory
    ensures IsDirectory(fs, point.directory, Service(op.service))
    ensures HoldsDescriptors(fs, op, other)
  {
    assert point.directory in Directories(op, point);
  }

  predicate HasDirectory(point: Point) {
    !point.AtMount? && !point.AtPrepare? && !point.AtRoot? && !point.AtVersion? && !point.AtService?
    && !point.AtCloseVersion? && !point.AtCloseRoot? && !point.Finished?
  }

  lemma OpensFile(fs: Fs, op: Op, directory: int, inode: Inode)
    requires Consistent(fs) && HoldsDescriptors(fs, op, AtOpen(directory)) && inode in fs.nodes
    ensures HoldsDescriptors(Install(fs, FileHandle(inode, false, 0)).0, op, AtStat(directory, fs.nextDescriptor))
  {
    hide Consistent;
    FreshDescriptor(fs);
    assert directory in Directories(op, AtOpen(directory));
  }

  lemma EntryInode(fs: Fs, path: Path)
    requires Consistent(fs)
    ensures path in fs.entries ==> fs.entries[path] in fs.nodes
  {
  }

  lemma OpenFails(fs: Fs, op: Op, directory: int, err: Error, fault: Disturbance, trusted: bool)
    requires Consistent(fs) && (trusted ==> Honest(fault)) && HoldsDescriptors(fs, op, AtOpen(directory))
    requires OpenExisting(fs, PathFor(op), fault.error).1 == Outcome.Failed(err)
    ensures ThreadOk(fs, op, AfterOpenFailure(op, directory, err),
                     NewAction(fs, op, AtOpen(directory), Outcome.Failed(err), None), trusted)
  {
    hide Consistent, Explains, OperationError, Is, Layout.IsCredentialName, Layout.Hex, ThreadOk, HoldsDescriptors, OpenExisting;
    if trusted {
      OpenAccounted(fs, op, fault);
    }
    var action := NewAction(fs, op, AtOpen(directory), Outcome.Failed(err), None);
    RejectExplained(op, err, action, trusted);
    HoldsDirectory(fs, op, AtOpen(directory), AfterOpenFailure(op, directory, err));
    PlainlyOk(fs, op, AfterOpenFailure(op, directory, err), action, trusted);
  }

  lemma OpenAdvances(fs: Fs, op: Op, point: Point, fault: Disturbance, trusted: bool)
    requires Consistent(fs) && (trusted ==> Honest(fault))
    requires point.AtOpen? && HoldsDescriptors(fs, op, point)
    ensures Callable(fs, CallOf(op, point)) && Advances(fs, op, point, None, fault, trusted)
  {
    hide Consistent, Explains, OperationError, Is, Layout.IsCredentialName, Layout.Hex, ThreadOk, HoldsDescriptors,
         Install, AfterOpenFailure, Directories;
    HoldsDirectory(fs, op, point, point);
    if PathFor(op) in fs.entries {
      OpensNext(fs, FileHandle(fs.entries[PathFor(op)], false, 0));
    }
    var (after, outcome) := Exec(fs, CallOf(op, point), fault);
    if outcome.Failed? {
      OpenFails(fs, op, point.directory, outcome.error, fault, trusted);
    } else {
      var inode := fs.entries[PathFor(op)];
      EntryInode(fs, PathFor(op));
      OpensFile(fs, op, point.directory, inode);
      OpenedOk(fs, after, op, AtStat(point.directory, fs.nextDescriptor), inode, trusted);
    }
  }

  lemma OpenedOk(fs: Fs, after: Fs, op: Op, point: Point, inode: Inode, trusted: bool)
    requires Binding(fs, PathFor(op)) == Some(inode) && inode in fs.nodes
    requires after == Install(fs, FileHandle(inode, false, 0)).0
    requires point.AtStat? && point.descriptor == fs.nextDescriptor && HoldsDescriptors(after, op, point)
    ensures ThreadOk(after, op, point, if op.Get? then Some(Saw(PathFor(op), Some(Content(fs, inode)))) else None, trusted)
  {
    hide HoldsDescriptors, ThreadOk, PathFor, Directories;
    ReadOk(after, op, point, if op.Get? then Some(Saw(PathFor(op), Some(Content(fs, inode)))) else None, trusted);
  }

  /** Closing the file leaves the directory. */
  lemma ClosesFile(fs: Fs, op: Op, point: Point, other: Point)
    requires HoldsDescriptors(fs, op, point) && HasDirectory(point) && File(point).Some?
    requires HasDirectory(other) && other.directory == point.directory && File(other).None?
    ensures File(point).value in fs.open
    ensures HoldsDescriptors(fs.(open := fs.open - {File(point).value}), op, other)
  {
    assert point.directory in Directories(op, point);
  }

  lemma CloseInvalidAdvances(fs: Fs, op: Op, point: Point, action: Option<Action>, fault: Disturbance, trusted: bool)
    requires point.AtCloseInvalid? && HoldsDescriptors(fs, op, point) && LogsRight(fs, op, point, action, trusted)
    ensures Callable(fs, CallOf(op, point)) && Advances(fs, op, point, action, fault, trusted)
  {
    hide Explains, OperationError, PathFor, Is, NotMisleading, ThreadOk, HoldsDescriptors, Directories;
    var next := AfterOpenFailure(op, point.directory, point.problem);
    ClosesFile(fs, op, point, next);
    RejectExplained(op, point.problem, action, trusted);
    PlainlyOk(fs.(open := fs.open - {point.descriptor}), op, next, action, trusted);
  }

  lemma StatAdvances(fs: Fs, op: Op, point: Point, action: Option<Action>, fault: Disturbance, trusted: bool)
    requires trusted ==> Honest(fault)
    requires point.AtStat? && HoldsDescriptors(fs, op, point)
    requires StillValidated(fs, op, point, trusted) && ReadsPrefix(fs, op, point) && LogsRight(fs, op, point, action, trusted)
    ensures Callable(fs, CallOf(op, point)) && Advances(fs, op, point, action, fault, trusted)
  {
    hide OperationError, PathFor, Is, Plain, ThreadOk, HoldsDescriptors, Directories, SecureMeta;
    InsecurePlain();
    IsReadable(fs, op, point);
    IsOpenFile(fs, op, point);
    var outcome := Exec(fs, CallOf(op, point), fault).1;
    var next := Next(op, fs.uid, point, outcome);
    StatHolds(fs, op, point, next);
    if next.AtRead? {
      ReadOk(fs, op, next, action, trusted);
    } else {
      PlainlyOk(fs, op, next, action, trusted);
    }
  }

  lemma IsReadable(fs: Fs, op: Op, point: Point)
    requires HoldsDescriptors(fs, op, point)
    requires point.AtStat? || point.AtRead?
    ensures Callable(fs, Fstat(point.descriptor)) && Callable(fs, Read(point.descriptor))
  {
  }

  /** The same two descriptors, whatever is done with them next. */
  lemma StatHolds(fs: Fs, op: Op, point: Point, next: Point)
    requires HoldsDescriptors(fs, op, point) && HasDirectory(point) && HasDirectory(next)
    requires next.directory == point.directory && File(next) == File(point)
    requires Temporary(op, point).None? && Temporary(op, next).None?
    ensures HoldsDescriptors(fs, op, next)
  {
    assert Directories(op, point) == map[point.directory := Service(op.service)];
    assert Directories(op, next) == map[point.directory := Service(op.service)];
  }

  lemma ReadOk(fs: Fs, op: Op, point: Point, action: Option<Action>, trusted: bool)
    requires point.AtStat? || point.AtRead? || point.AtCloseRead?
    requires RightKind(op, point) && HoldsDescriptors(fs, op, point) && StillValidated(fs, op, point, trusted)
    requires ReadsPrefix(fs, op, point) && LogsRight(fs, op, point, action, trusted)
    ensures ThreadOk(fs, op, point, action, trusted)
  {
    hide HoldsDescriptors, ReadsPrefix, LogsRight, Directories, PathFor;
  }

  lemma ReadMoves(fs: Fs, op: Op, point: Point, fault: Disturbance)
    requires point.AtRead? && HoldsDescriptors(fs, op, point) && ReadsPrefix(fs, op, point)
    ensures Callable(fs, Read(point.descriptor))
    ensures var (after, outcome) := ReadFile(fs, point.descriptor, fault);
            var handle := fs.open[point.descriptor];
            var contents := point.contents + outcome.data;
            && after == fs.(open := fs.open[point.descriptor := FileHandle(handle.inode, false, |contents|)])
            && contents <= Content(fs, handle.inode)
            && (outcome.problem.None? && outcome.count == 0 ==> contents == Content(fs, handle.inode))
  {
    hide Directories, PathFor;
    IsReadable(fs, op, point);
    var content := Content(fs, fs.open[point.descriptor].inode);
    var outcome := ReadFile(fs, point.descriptor, fault).1;
    var rest := content[|point.contents|..];
    assert outcome.data == rest[..|outcome.data|];
    assert point.contents + outcome.data == content[..|point.contents| + |outcome.data|];
  }

  lemma ReadHolds(fs: Fs, after: Fs, op: Op, point: Point, next: Point, offset: nat)
    requires point.AtRead? && HoldsDescriptors(fs, op, point)
    requires after == fs.(open := fs.open[point.descriptor := FileHandle(fs.open[point.descriptor].inode, false, offset)])
    requires next.AtRead? || next.AtCloseRead?
    requires next.directory == point.directory && next.descriptor == point.descriptor
    ensures HoldsDescriptors(after, op, next)
  {
    assert point.directory in Directories(op, point);
  }

  lemma ReadAdvances(fs: Fs, op: Op, point: Point, action: Option<Action>, fault: Disturbance, trusted: bool)
    requires (trusted ==> Honest(fault)) && point.AtRead? && RightKind(op, point)
    requires HoldsDescriptors(fs, op, point) && ReadsPrefix(fs, op, point) && LogsRight(fs, op, point, action, trusted)
    ensures Callable(fs, CallOf(op, point)) && Advances(fs, op, point, action, fault, trusted)
  {
    hide OperationError, PathFor, Is, Plain, ThreadOk, HoldsDescriptors, Directories, ReadFile;
    ReadMoves(fs, op, point, fault);
    ReadReports(fs, point.descriptor, fault);
    IsReadable(fs, op, point);
    ExecFits(fs, CallOf(op, point), fault);
    var (after, outcome) := Exec(fs, CallOf(op, point), fault);
    var next := Next(op, fs.uid, point, outcome);
    ReadHolds(fs, after, op, point, next, |point.contents + outcome.data|);
    ReadOk(after, op, next, action, trusted);
  }

  lemma ReadReports(fs: Fs, descriptor: int, fault: Disturbance)
    requires Callable(fs, Read(descriptor))
    ensures ReadFile(fs, descriptor, fault).1.problem == fault.error
  {
  }

  lemma ReadingExplained(op: Op, contents: Bytes, readProblem: Option<Error>, closeProblem: Option<Error>, action: Option<Action>, trusted: bool)
    requires op.Get?
    requires trusted && readProblem.Some? ==> Plain(readProblem.value)
    requires trusted && closeProblem.Some? ==> Plain(closeProblem.value)
    requires readProblem.None? ==> action == Some(Saw(PathFor(op), Some(contents)))
    ensures var reply := AfterReading(contents, readProblem, closeProblem);
            !reply.Stored? && Explains(op, reply, action, trusted)
  {
    if readProblem.Some? {
      var err := JoinOptional(readProblem.value, closeProblem);
      NotFoundExactly(true, err);
    } else if closeProblem.Some? {
      NotFoundExactly(true, One(0, closeProblem.value));
    }
  }

  lemma CloseReadAdvances(fs: Fs, op: Op, point: Point, action: Option<Action>, fault: Disturbance, trusted: bool)
    requires (trusted ==> Honest(fault)) && point.AtCloseRead? && RightKind(op, point)
    requires HoldsDescriptors(fs, op, point) && ReadsPrefix(fs, op, point) && LogsRight(fs, op, point, action, trusted)
    ensures Callable(fs, CallOf(op, point)) && Advances(fs, op, point, action, fault, trusted)
  {
    hide OperationError, PathFor, Is, Plain, ThreadOk, HoldsDescriptors, Directories, Explains, AfterReading;
    var reply := AfterReading(point.contents, point.readProblem, fault.error);
    var next := AtCloseDirectory(point.directory, reply);
    IsOpenFile(fs, op, point);
    ReadingExplained(op, point.contents, point.readProblem, fault.error, action, trusted);
    ClosesFile(fs, op, point, next);
    PlainlyOk(fs.(open := fs.open - {point.descriptor}), op, next, action, trusted);
  }

  lemma IsOpenFile(fs: Fs, op: Op, point: Point)
    requires HoldsDescriptors(fs, op, point) && File(point).Some?
    ensures IsFile(fs, File(point).value)
  {
  }
}
