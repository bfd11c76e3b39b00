/**
 The `linuxSystem` interface (internal/backend/fs/storage_linux.go:25-39) over a fault script.

 Every call goes through `Invoke`, which also advances the control point of `Program`: code that
 verifies makes exactly the calls the program of its operation makes, whatever the script does.
 */
module LinuxSystem {
  import opened Wrappers
  import opened Errors
  import opened Filesystem
  import opened Program
  import opened Invariants
  import opened Answers
  import Layout

  /** Where in an operation a call failed. */
  datatype Stage = Early | DirectorySync | Cleanup

  function StageOf(point: Point): Stage {
    match point
    case AtSyncDirectory(_) => DirectorySync
    case AtCleanupUnlink(_, _, _) => Cleanup
    case _ => Early
  }

  predicate Unsuccessful(outcome: Outcome) {
    outcome.Failed? || (outcome.Transferred? && outcome.problem.Some?)
  }

  function Upcoming(script: seq<Disturbance>): Disturbance {
    if script == [] then CALM else script[0]
  }

  function Later(script: seq<Disturbance>): seq<Disturbance> {
    if script == [] then [] else script[1..]
  }

  /** An error that pretends neither that a file is missing or in the way nor the category `NotFound`. */
  predicate Plain(err: Error) {
    !Is(err, Std(NotExist)) && NotMisleading(err)
  }

  predicate NotMisleading(err: Error) {
    !Is(err, Std(Exist)) && !IsCategory(err, NotFound)
  }

  predicate Honest(fault: Disturbance) {
    fault.error.Some? ==> Plain(fault.error.value)
  }

  /** The mount check may also refuse: whatever made it refuse, its error matches `InsecureFallback`. */
  predicate HonestMount(fault: Disturbance) {
    Honest(fault) || (fault.error.Some? && IsCategory(fault.error.value, InsecureFallback))
  }

  /** What an honest system may report for the call made at a control point. */
  predicate HonestAt(point: Point, fault: Disturbance) {
    if point.AtMount? then HonestMount(fault) else Honest(fault)
  }

  /** No fault: transfers may still be short, but move something. */
  predicate Harmless(fault: Disturbance) {
    && fault.error.None?
    && fault.short != Some(0)
    && |fault.random| == Layout.RANDOM_BYTES
  }

  predicate AllHonest(script: seq<Disturbance>) {
    forall fault <- script :: Honest(fault)
  }

  /** An operation is met honestly: its mount check by the first disturbance, its system calls by the others. */
  predicate HonestRun(script: seq<Disturbance>) {
    HonestMount(Upcoming(script)) && AllHonest(Later(script))
  }

  predicate AllHarmless(script: seq<Disturbance>) {
    forall fault <- script :: Harmless(fault)
  }

  ghost predicate ScriptKept(before: seq<Disturbance>, after: seq<Disturbance>) {
    (AllHonest(before) ==> AllHonest(after)) && (AllHarmless(before) ==> AllHarmless(after))
  }

  /** Names, inodes, durability and inode numbering are all as they were. */
  ghost predicate SameFiles(before: Fs, after: Fs) {
    && after == before.(open := after.open, nextDescriptor := after.nextDescriptor, directories := after.directories)
    && DirectoriesKept(before, after)
  }

  ghost predicate DirectoriesKept(before: Fs, after: Fs) {
    forall directory <- before.directories ::
      directory in after.directories && after.directories[directory] == before.directories[directory]
  }

  ghost predicate OnlyDescriptors(before: Fs, after: Fs) {
    after == before.(open := after.open, nextDescriptor := after.nextDescriptor)
  }

  ghost predicate DirectoriesReady(fs: Fs, service: string) {
    SecureDirectory(fs, Root) && SecureDirectory(fs, Version) && SecureDirectory(fs, Service(service))
  }

  /** The directories that exist are acceptable; the missing ones can be created. */
  ghost predicate DirectoriesAcceptable(fs: Fs, service: string) {
    && (Root in fs.directories ==> SecureDirectory(fs, Root))
    && (Version in fs.directories ==> SecureDirectory(fs, Version))
    && (Service(service) in fs.directories ==> SecureDirectory(fs, Service(service)))
  }

  ghost predicate ServiceExists(fs: Fs, service: string) {
    Root in fs.directories && Version in fs.directories && Service(service) in fs.directories
  }

  /** Success leaves exactly one more descriptor, on that handle; failure leaves none. */
  ghost predicate DescriptorAdded(before: Fs, after: Fs, handle: Handle, result: Result<int, Error>) {
    && OnlyDescriptors(before, after)
    && match result
       case Success(descriptor) =>
         descriptor !in before.open && after.open == before.open[descriptor := handle]
       case Failure(_) => after.open == before.open
  }

  /** When opening a directory succeeds, and when its failure says that the directory is missing. */
  ghost predicate DirectoryVerdict(
    before: Fs, directory: Directory, script: seq<Disturbance>, result: Result<int, Error>)
  {
    && (result.Success? ==> SecureDirectory(before, directory))
    && (AllHarmless(script) && SecureDirectory(before, directory) ==> result.Success?)
    && (AllHarmless(script) && directory !in before.directories ==>
          result.Failure? && Is(result.error, Std(NotExist)))
    && (AllHonest(script) && result.Failure? ==> NotMisleading(result.error))
    && (AllHonest(script) && result.Failure? && Is(result.error, Std(NotExist)) ==>
          directory !in before.directories && !IsCategory(result.error, InsecureFallback))
  }

  ghost predicate RegularAt(fs: Fs, path: Path) {
    && path in fs.entries
    && fs.entries[path] in fs.nodes
    && fs.nodes[fs.entries[path]].meta.kind == Regular
  }

  /** The same for a credential file; a missing name is reported as such. */
  ghost predicate FileVerdict(before: Fs, path: Path, script: seq<Disturbance>, result: Result<int, Error>) {
    && (result.Success? ==> path in before.entries)
    && (AllHarmless(script) && path !in before.entries ==> result.Failure? && Is(result.error, Std(NotExist)))
    && (AllHarmless(script) && RegularAt(before, path) ==> result.Success?)
    && (AllHarmless(script) && path in before.entries && result.Failure? ==> result.error == Errno(ELOOP))
    && (AllHonest(script) && result.Failure? ==> NotMisleading(result.error))
    && (AllHonest(script) && result.Failure? && Is(result.error, Std(NotExist)) ==>
          path !in before.entries && !IsCategory(result.error, InsecureFallback))
  }

  lemma InsecureIsPlain()
    ensures Plain(INSECURE)
    ensures NotMisleading(INSECURE) && !Is(INSECURE, Std(NotExist))
  {
  }

  /** A call's failure is recorded at its stage, and the script's honesty or harmlessness persists. */
  twostate predicate Recorded(system: System, stage: Stage, failed: bool)
    reads system
  {
    && system.op == old(system.op)
    && system.failures == old(system.failures) + (if failed then {stage} else {})
    && ScriptKept(old(system.script), system.script)
  }

  ghost predicate Explained(script: seq<Disturbance>, problem: Option<Error>) {
    && (AllHarmless(script) ==> problem.None?)
    && (AllHonest(script) && problem.Some? ==> Plain(problem.value))
  }

  function Problem(outcome: Outcome): Option<Error> {
    if outcome.Failed? then Some(outcome.error) else None
  }

  function AsResult(outcome: Outcome): Result<int, Error>
    requires outcome.Opened? || outcome.Failed?
  {
    if outcome.Failed? then Failure(outcome.error) else Success(outcome.descriptor)
  }

  lemma OpenDirectoryEffects(fs: Fs, directory: Directory, script: seq<Disturbance>)
    requires fs.nextDescriptor !in fs.open
    ensures var (after, outcome) := OpenDirectory(fs, directory, Upcoming(script).error);
            && DescriptorAdded(fs, after, DirectoryHandle(directory), AsResult(outcome))
            && DirectoryVerdict(fs, directory, script, AsResult(outcome))
  {
    assert NotMisleading(INSECURE) && !Is(INSECURE, Std(NotExist));
    assert Is(Annotate(Errno(ENOENT)), Std(NotExist)) && NotMisleading(Annotate(Errno(ENOENT)));
    assert !IsCategory(Annotate(Errno(ENOENT)), InsecureFallback);
    assert AllHonest(script) ==> Honest(Upcoming(script));
    assert AllHarmless(script) ==> Harmless(Upcoming(script));
  }

  lemma OpenExistingEffects(fs: Fs, path: Path, script: seq<Disturbance>)
    requires fs.nextDescriptor !in fs.open
    ensures var (after, outcome) := OpenExisting(fs, path, Upcoming(script).error);
            && (outcome.Failed? ==> after == fs)
            && (outcome.Opened? ==> path in fs.entries && DescriptorAdded(fs, after, FileHandle(fs.entries[path], false, 0), AsResult(outcome)))
            && FileVerdict(fs, path, script, AsResult(outcome))
  {
    assert Is(Errno(ENOENT), Std(NotExist)) && NotMisleading(Errno(ENOENT));
    assert !IsCategory(Errno(ENOENT), InsecureFallback);
    assert NotMisleading(Errno(ELOOP)) && !Is(Errno(ELOOP), Std(NotExist));
    assert AllHonest(script) ==> Honest(Upcoming(script));
    assert AllHarmless(script) ==> Harmless(Upcoming(script));
  }

  lemma CreateEffects(fs: Fs, path: Path, script: seq<Disturbance>)
    requires Consistent(fs)
    ensures var (after, outcome) := CreateNew(fs, path, Upcoming(script).error);
            && (outcome.Failed? ==> after == fs)
            && (outcome.Opened? ==>
                  && path !in fs.entries
                  && outcome.descriptor !in fs.open
                  && (after, outcome) == CreateNew(fs, path, None))
            && (AllHarmless(script) && path !in fs.entries ==> outcome.Opened?)
  {
    assert AllHarmless(script) ==> Harmless(Upcoming(script));
  }

  lemma WithDirectoryEffects(fs: Fs, directory: Directory)
    ensures var after := WithDirectory(fs, directory);
            && after == fs.(directories := after.directories)
            && after.directories.Keys == fs.directories.Keys + {directory}
            && (forall d <- fs.directories :: after.directories[d] == fs.directories[d])
            && (directory !in fs.directories ==> SecureDirectory(after, directory))
  {
  }

  lemma PrepareEffects(fs: Fs, service: string, problem: Option<Error>, limit: nat)
    ensures var (after, outcome) := Prepare(fs, service, problem, limit);
            && after == fs.(directories := after.directories)
            && DirectoriesKept(fs, after)
            && (outcome.Done? ==> DirectoriesReady(after, service))
            && (problem.None? && DirectoriesAcceptable(fs, service) ==> outcome.Done?)
            && (outcome.Failed? ==> outcome.error == INSECURE || problem == Some(outcome.error))
  {
    var root := WithDirectory(fs, Root);
    WithDirectoryEffects(fs, Root);
    var version := WithDirectory(root, Version);
    WithDirectoryEffects(root, Version);
    WithDirectoryEffects(version, Service(service));
    hide WithDirectory;
  }

  /** The points from which `descriptor` is closed next. */
  predicate Closing(point: Point, descriptor: int) {
    match point
    case AtCloseVersion(_, version, _) => version == descriptor
    case AtCloseRoot(root, _) => root == descriptor
    case AtCloseInvalid(_, file, _) => file == descriptor
    case AtCloseRead(_, file, _, _) => file == descriptor
    case AtCloseChecked(_, file, _) => file == descriptor
    case AtCloseFile(_, _, _, file) => file == descriptor
    case AtCleanupClose(_, _, file, _) => file == descriptor
    case AtCloseDirectory(directory, _) => directory == descriptor
    case _ => false
  }

  function AfterClose(op: Op, point: Point, problem: Option<Error>): Point {
    match point
    case AtCloseVersion(root, _, result) => AtCloseRoot(root, result)
    case AtCloseRoot(_, result) => AfterService(op, result)
    case AtCloseInvalid(directory, _, reason) => AfterOpenFailure(op, directory, reason)
    case AtCloseDirectory(_, reply) => Finished(reply)
    case AtCloseRead(directory, _, contents, readProblem) =>
      AtCloseDirectory(directory, AfterReading(contents, readProblem, problem))
    case AtCloseChecked(directory, _, inode) =>
      (match problem
       case Some(err) => AtCloseDirectory(directory, Reject(op, err))
       case None => if op.Set? then AtRandom(directory, Some(inode), 0) else AtUnlink(directory, inode))
    case AtCloseFile(directory, seen, temporary, _) =>
      (match problem
       case Some(err) => AtCleanupUnlink(directory, temporary, err)
       case None => AtRename(directory, seen, temporary))
    case AtCleanupClose(directory, temporary, _, reason) =>
      AtCleanupUnlink(directory, temporary, JoinOptional(reason, problem))
    case _ => point
  }

  /** The points from which `name` is removed next: a temporary in cleanup, the credential in Delete. */
  predicate Unlinking(op: Op, point: Point, directory: int, name: string) {
    match point
    case AtCleanupUnlink(parent, temporary, _) => parent == directory && temporary == name
    case AtUnlink(parent, _) => parent == directory && Name(op) == name
    case _ => false
  }

  function AfterUnlink(op: Op, point: Point, problem: Option<Error>): Point {
    match point
    case AtCleanupUnlink(directory, _, reason) =>
      AtCloseDirectory(directory, Reject(op, AfterCleanup(reason, problem)))
    case AtUnlink(directory, _) =>
      if problem.Some? then AtCloseDirectory(directory, Reject(op, problem.value)) else AtSyncDirectory(directory)
    case _ => point
  }

  /** `after` is where the program goes from `point` with the outcome of its call. */
  predicate Follows(op: Op, uid: nat, point: Point, outcome: Outcome, after: Point) {
    !point.Finished? && Fits(CallOf(op, point), outcome) && after == Next(op, uid, point, outcome)
  }

  /** Where the program goes after opening one of the three directories. */
  lemma DirectoryFollows(op: Op, uid: nat, point: Point, outcome: Outcome, after: Point)
    requires Follows(op, uid, point, outcome, after)
    requires point.AtRoot? || point.AtVersion? || point.AtService?
    ensures outcome.Opened? || outcome.Failed?
    ensures var result := AsResult(outcome);
            match point
            case AtRoot =>
              after == (if result.Failure? then Finished(Reject(op, result.error)) else AtVersion(result.value))
            case AtVersion(root) =>
              after == (if result.Failure? then AtCloseRoot(root, Failure(result.error)) else AtService(root, result.value))
            case AtService(root, version) => after == AtCloseVersion(root, version, result)
  {
  }

  class System {
    var fs: Fs
    var script: seq<Disturbance>
    ghost var op: Op
    ghost var point: Point
    ghost var failures: set<Stage>
    ghost var history: seq<Event>

    /** The file system is consistent, and what the operation will answer is settled by its history. */
    ghost predicate Valid()
      reads this
    {
      Consistent(fs) && Accounted(op, history, point)
    }

    constructor (fs: Fs, script: seq<Disturbance>, ghost op: Op)
      ensures this.fs == fs && this.script == script
      ensures this.op == op && point == AtMount && failures == {} && history == []
    {
      this.fs, this.script := fs, script;
      this.op, point, failures, history := op, AtMount, {}, [];
    }

    /** Starts the ghost program of one operation. */
    ghost method Begin(op: Op)
      modifies this
      ensures fs == old(fs) && script == old(script)
      ensures this.op == op && point == AtMount && failures == {} && history == []
      ensures old(Consistent(fs)) ==> Valid()
    {
      this.op, point, failures, history := op, AtMount, {}, [];
    }

    method Invoke(call: Call) returns (outcome: Outcome)
      requires Valid()
      requires !point.Finished? && call == CallOf(op, point)
      requires Callable(fs, call)
      modifies this
      ensures (fs, outcome) == Exec(old(fs), call, Upcoming(old(script)))
      ensures script == Later(old(script))
      ensures Valid()
      ensures Fits(call, outcome)
      ensures Follows(op, old(fs).uid, old(point), outcome, point)
      ensures history == old(history) + [Event(old(fs).uid, old(point), outcome)]
      ensures Recorded(this, StageOf(old(point)), Unsuccessful(outcome))
      ensures AllHonest(old(script)) ==> Honest(Upcoming(old(script)))
      ensures AllHarmless(old(script)) ==> Harmless(Upcoming(old(script)))
    {
      hide Consistent, Accounted, Exec, Next, Fits, CallOf, Callable;
      var fault := Upcoming(script);
      ExecConsistent(fs, call, fault);
      ExecFits(fs, call, fault);
      var (after, result) := Exec(fs, call, fault);
      NextAccounted(op, fs.uid, history, point, result);
      history := history + [Event(fs.uid, point, result)];
      failures := failures + if Unsuccessful(result) then {StageOf(point)} else {};
      point := Next(op, fs.uid, point, result);
      fs, outcome, script := after, result, Later(script);
    }

    method ValidateMount() returns (problem: Option<Error>)
      requires Valid() && point == AtMount
      modifies this
      ensures Valid() && Recorded(this, Early, problem.Some?) && Explained(old(script), problem)
      ensures problem == Upcoming(old(script)).error && script == Later(old(script))
      ensures fs == old(fs)
      ensures point == match problem
                       case Some(err) => Finished(Reject(op, err))
                       case None => if op.Set? then AtPrepare else AtRoot
    {
      hide Consistent, Accounted;
      var outcome := Invoke(Call.ValidateMount);
      problem := Problem(outcome);
    }

    method PrepareDirectories(service: string) returns (problem: Option<Error>)
      requires Valid() && point == AtPrepare && op.service == service
      modifies this
      ensures Valid() && Recorded(this, Early, problem.Some?)
      ensures fs == old(fs).(directories := fs.directories) && DirectoriesKept(old(fs), fs)
      ensures point == match problem case Some(err) => Finished(Reject(op, err)) case None => AtRoot
      ensures problem.None? ==> DirectoriesReady(fs, service)
      ensures AllHarmless(old(script)) && DirectoriesAcceptable(old(fs), service) ==> problem.None?
      ensures AllHonest(old(script)) && problem.Some? ==> Plain(problem.value)
    {
      hide Consistent, Accounted, Prepare, Is, DirectoriesReady, DirectoriesAcceptable, DirectoriesKept, Plain;
      PrepareEffects(fs, service, Upcoming(script).error, Allowance(Upcoming(script), 3));
      InsecureIsPlain();
      var outcome := Invoke(Call.PrepareDirectories(service));
      problem := Problem(outcome);
    }

    method OpenRootDirectory() returns (result: Result<int, Error>)
      requires Valid() && point == AtRoot
      modifies this
      ensures Valid() && Recorded(this, Early, result.Failure?)
      ensures DescriptorAdded(old(fs), fs, DirectoryHandle(Root), result)
      ensures DirectoryVerdict(old(fs), Root, old(script), result)
      ensures point == match result
                       case Failure(err) => Finished(Reject(op, err))
                       case Success(root) => AtVersion(root)
    {
      OpenDirectoryEffects(fs, Root, script);
      hide Consistent, Accounted, DirectoryVerdict, DescriptorAdded, OpenDirectory, Follows, AsResult;
      var outcome := Invoke(OpenRoot);
      DirectoryFollows(op, old(fs).uid, old(point), outcome, point);
      result := AsResult(outcome);
    }

    method OpenVersionDirectory(root: int) returns (result: Result<int, Error>)
      requires Valid() && point == AtVersion(root) && IsDirectory(fs, root, Root)
      modifies this
      ensures Valid() && Recorded(this, Early, result.Failure?)
      ensures DescriptorAdded(old(fs), fs, DirectoryHandle(Version), result)
      ensures DirectoryVerdict(old(fs), Version, old(script), result)
      ensures point == match result
                       case Failure(err) => AtCloseRoot(root, Failure(err))
                       case Success(version) => AtService(root, version)
    {
      OpenDirectoryEffects(fs, Version, script);
      hide Consistent, Accounted, DirectoryVerdict, DescriptorAdded, OpenDirectory, Follows, AsResult;
      var outcome := Invoke(OpenVersion(root));
      DirectoryFollows(op, old(fs).uid, old(point), outcome, point);
      result := AsResult(outcome);
    }

    method OpenServiceDirectory(ghost root: int, version: int, service: string) returns (result: Result<int, Error>)
      requires Valid() && point == AtService(root, version) && IsDirectory(fs, version, Version)
      requires op.service == service
      modifies this
      ensures Valid() && Recorded(this, Early, result.Failure?)
      ensures DescriptorAdded(old(fs), fs, DirectoryHandle(Service(service)), result)
      ensures DirectoryVerdict(old(fs), Service(service), old(script), result)
      ensures point == AtCloseVersion(root, version, result)
    {
      OpenDirectoryEffects(fs, Service(service), script);
      hide Consistent, Accounted, DirectoryVerdict, DescriptorAdded, OpenDirectory, Follows, AsResult;
      var outcome := Invoke(OpenService(version, service));
      DirectoryFollows(op, old(fs).uid, old(point), outcome, point);
      result := AsResult(outcome);
    }

    /** Releases the descriptor whether or not it reports an error. */
    method Close(descriptor: int) returns (problem: Option<Error>)
      requires Valid() && Closing(point, descriptor)
      requires descriptor in fs.open
      modifies this
      ensures Valid() && Recorded(this, Early, problem.Some?) && Explained(old(script), problem)
      ensures fs == old(fs).(open := old(fs).open - {descriptor})
      ensures point == AfterClose(op, old(point), problem)
    {
      hide Consistent, Accounted;
      var outcome := Invoke(Call.Close(descriptor));
      problem := Problem(outcome);
    }

    method OpenCredentialFile(directory: int, name: string) returns (result: Result<int, Error>)
      requires Valid() && point == AtOpen(directory) && name == Name(op)
      requires IsDirectory(fs, directory, Service(op.service))
      modifies this
      ensures Valid() && Recorded(this, Early, result.Failure?)
      ensures FileVerdict(old(fs), PathFor(op), old(script), result)
      ensures result.Success? ==>
        DescriptorAdded(old(fs), fs, FileHandle(old(fs).entries[PathFor(op)], false, 0), result)
      ensures result.Failure? ==> fs == old(fs)
      ensures point == match result
                       case Failure(err) => AfterOpenFailure(op, directory, err)
                       case Success(descriptor) => AtStat(directory, descriptor)
    {
      OpenExistingEffects(fs, PathFor(op), script);
      hide Consistent, Accounted, FileVerdict, DescriptorAdded, OpenExisting;
      var outcome := Invoke(OpenFile(directory, name));
      result := AsResult(outcome);
    }

    method Fstat(ghost directory: int, descriptor: int) returns (result: Result<(Meta, Inode), Error>)
      requires Valid() && point == AtStat(directory, descriptor) && IsFile(fs, descriptor)
      modifies this
      ensures Valid() && Recorded(this, Early, result.Failure?)
      ensures fs == old(fs)
      ensures AllHarmless(old(script)) ==> result.Success?
      ensures AllHonest(old(script)) && result.Failure? ==> Plain(result.error)
      ensures point == match result
                       case Failure(err) => AtCloseInvalid(directory, descriptor, err)
                       case Success((meta, inode)) =>
                         (match CredentialProblem(meta, fs.uid)
                          case Some(problem) => AtCloseInvalid(directory, descriptor, problem)
                          case None => AfterOpen(op, directory, descriptor, inode))
      ensures result.Success? ==>
        && result.value.1 == fs.open[descriptor].inode
        && result.value.0 == fs.nodes[result.value.1].meta
    {
      hide Consistent, Accounted;
      var outcome := Invoke(Call.Fstat(descriptor));
      result := if outcome.Failed? then Failure(outcome.error) else Success((outcome.meta, outcome.inode));
    }

    /** Delivers the next bytes of the file; nothing and no error means that there are none left. */
    method Read(ghost directory: int, descriptor: int, ghost contents: Bytes)
      returns (data: Bytes, problem: Option<Error>)
      requires Valid() && point == AtRead(directory, descriptor, contents)
      requires IsFile(fs, descriptor) && !fs.open[descriptor].writable
      requires |contents| == fs.open[descriptor].offset
      requires contents <= fs.nodes[fs.open[descriptor].inode].content
      modifies this
      ensures Valid() && Recorded(this, Early, problem.Some?) && Explained(old(script), problem)
      ensures OnlyDescriptors(old(fs), fs)
      ensures fs.open == old(fs).open[descriptor := FileHandle(old(fs).open[descriptor].inode, false, |contents + data|)]
      ensures contents + data <= fs.nodes[fs.open[descriptor].inode].content
      ensures problem.None? && data == [] ==> contents == fs.nodes[fs.open[descriptor].inode].content
      ensures point == if problem.Some? || data == [] then
                         AtCloseRead(directory, descriptor, contents + data, problem)
                       else
                         AtRead(directory, descriptor, contents + data)
    {
      hide Consistent, Accounted;
      ghost var content := fs.nodes[fs.open[descriptor].inode].content;
      ghost var rest := content[|contents|..];
      var outcome := Invoke(Call.Read(descriptor));
      data, problem := outcome.data, outcome.problem;
      assert data == rest[..|data|];
      assert contents + data == content[..|contents| + |data|];
    }

    method ReadRandom(ghost directory: int, ghost seen: Option<Inode>, ghost attempt: nat)
      returns (result: Result<Bytes, Error>)
      requires Valid() && point == AtRandom(directory, seen, attempt)
      modifies this
      ensures Valid() && Recorded(this, Early, result.Failure?)
      ensures fs == old(fs)
      ensures AllHarmless(old(script)) ==> result.Success?
      ensures AllHonest(old(script)) && result.Failure? ==> Plain(result.error)
      ensures result.Success? ==> |result.value| == Layout.RANDOM_BYTES
      ensures point == match result
                       case Failure(err) => AtCloseDirectory(directory, Reject(op, err))
                       case Success(bytes) => AtCreate(directory, seen, attempt, Layout.TemporaryName(bytes))
    {
      hide Consistent, Accounted;
      var outcome := Invoke(Call.ReadRandom);
      result := if outcome.Failed? then Failure(outcome.error) else Success(outcome.bytes);
    }

    method CreateTemporaryFile(
      directory: int, ghost seen: Option<Inode>, ghost attempt: nat, temporary: string)
      returns (result: Result<int, Error>)
      requires Valid() && point == AtCreate(directory, seen, attempt, temporary)
      requires IsDirectory(fs, directory, Service(op.service))
      modifies this
      ensures Valid() && Recorded(this, Early, result.Failure?)
      ensures match result
              case Success(descriptor) =>
                && Path(op.service, temporary) !in old(fs).entries
                && descriptor !in old(fs).open
                && (fs, Opened(descriptor)) == CreateNew(old(fs), Path(op.service, temporary), None)
              case Failure(err) => fs == old(fs)
      ensures AllHarmless(old(script)) && Path(op.service, temporary) !in old(fs).entries ==> result.Success?
      ensures point == match result
                       case Success(descriptor) => AtChmod(directory, seen, temporary, descriptor)
                       case Failure(err) =>
                         if !Is(err, Std(Exist)) then
                           AtCloseDirectory(directory, Reject(op, err))
                         else if attempt + 1 < ATTEMPTS then
                           AtRandom(directory, seen, attempt + 1)
                         else
                           AtCloseDirectory(directory, Reject(op, NO_TEMPORARY))
    {
      hide Consistent, Accounted, CreateNew, Is, OperationError, AllHonest, AllHarmless;
      CreateEffects(fs, Path(op.service, temporary), script);
      var outcome := Invoke(CreateFile(directory, temporary));
      result := AsResult(outcome);
    }

    method Fchmod(ghost directory: int, ghost seen: Option<Inode>, ghost temporary: string, descriptor: int)
      returns (problem: Option<Error>)
      requires Valid() && point == AtChmod(directory, seen, temporary, descriptor)
      requires IsWritable(fs, descriptor)
      modifies this
      ensures Valid() && Recorded(this, Early, problem.Some?) && Explained(old(script), problem)
      ensures problem.Some? ==> fs == old(fs)
      ensures problem.None? ==>
        var inode := old(fs).open[descriptor].inode;
        fs == old(fs).(nodes := old(fs).nodes[inode := old(fs).nodes[inode].(meta := old(fs).nodes[inode].meta.(mode := SECRET_MODE))],
                       synced := old(fs).synced - {inode})
      ensures point == match problem
                       case Some(err) => AtCleanupClose(directory, temporary, descriptor, err)
                       case None =>
                         AfterWrite(directory, seen, temporary, descriptor, if op.Set? then op.value else [])
    {
      hide Consistent, Accounted;
      var outcome := Invoke(Call.Fchmod(descriptor, SECRET_MODE));
      problem := Problem(outcome);
    }

    method Write(
      ghost directory: int, ghost seen: Option<Inode>, ghost temporary: string, descriptor: int, contents: Bytes)
      returns (count: nat, problem: Option<Error>)
      requires Valid() && point == AtWrite(directory, seen, temporary, descriptor, contents)
      requires IsWritable(fs, descriptor) && contents != []
      modifies this
      ensures Valid() && Recorded(this, Early, problem.Some?) && Explained(old(script), problem)
      ensures AllHarmless(old(script)) ==> count > 0
      ensures count <= |contents|
      ensures var inode := old(fs).open[descriptor].inode;
              fs == old(fs).(nodes := old(fs).nodes[inode := old(fs).nodes[inode].(content := old(fs).nodes[inode].content + contents[..count])],
                             synced := old(fs).synced - {inode})
      ensures point == if problem.Some? then
                         AtCleanupClose(directory, temporary, descriptor, problem.value)
                       else if count == 0 then
                         AtCleanupClose(directory, temporary, descriptor, Std(ShortWrite))
                       else
                         AfterWrite(directory, seen, temporary, descriptor, contents[count..])
    {
      hide Consistent, Accounted;
      var outcome := Invoke(Call.Write(descriptor, contents));
      count, problem := outcome.count, outcome.problem;
    }

    method SyncFile(ghost directory: int, ghost seen: Option<Inode>, ghost temporary: string, descriptor: int)
      returns (problem: Option<Error>)
      requires Valid() && point == AtSyncFile(directory, seen, temporary, descriptor)
      requires IsFile(fs, descriptor)
      modifies this
      ensures Valid() && Recorded(this, Early, problem.Some?) && Explained(old(script), problem)
      ensures problem.Some? ==> fs == old(fs)
      ensures problem.None? ==> fs == old(fs).(synced := old(fs).synced + {old(fs).open[descriptor].inode})
      ensures point == match problem
                       case Some(err) => AtCleanupClose(directory, temporary, descriptor, err)
                       case None => AtCloseFile(directory, seen, temporary, descriptor)
    {
      hide Consistent, Accounted;
      var outcome := Invoke(Fsync(descriptor));
      problem := Problem(outcome);
    }

    method Rename(directory: int, ghost seen: Option<Inode>, from: string, to: string)
      returns (problem: Option<Error>)
      requires Valid() && point == AtRename(directory, seen, from) && to == Name(op)
      requires IsDirectory(fs, directory, Service(op.service))
      requires Path(op.service, from) in fs.entries
      modifies this
      ensures Valid() && Recorded(this, Early, problem.Some?) && Explained(old(script), problem)
      ensures problem.Some? ==> fs == old(fs)
      ensures problem.None? ==> fs == RenameEntry(old(fs), Path(op.service, from), PathFor(op), None).0
      ensures point == match problem
                       case Some(err) => AtCleanupUnlink(directory, from, err)
                       case None => AtSyncDirectory(directory)
    {
      hide Consistent, Accounted;
      var outcome := Invoke(Call.Rename(directory, from, to));
      problem := Problem(outcome);
    }

    /** Removes the operation's own temporary or credential name. */
    method Unlink(directory: int, name: string) returns (problem: Option<Error>)
      requires Valid() && Unlinking(op, point, directory, name)
      requires IsDirectory(fs, directory, Service(op.service))
      requires Path(op.service, name) in fs.entries
      modifies this
      ensures Valid() && Recorded(this, StageOf(old(point)), problem.Some?) && Explained(old(script), problem)
      ensures problem.Some? ==> fs == old(fs)
      ensures problem.None? ==> fs == Rebind(old(fs), Path(op.service, name), None)
      ensures point == AfterUnlink(op, old(point), problem)
    {
      hide Consistent, Accounted;
      var outcome := Invoke(Call.Unlink(directory, name));
      problem := Problem(outcome);
    }

    method SyncDirectory(directory: int) returns (problem: Option<Error>)
      requires Valid() && point == AtSyncDirectory(directory)
      requires IsDirectory(fs, directory, Service(op.service))
      modifies this
      ensures Valid() && Recorded(this, DirectorySync, problem.Some?) && Explained(old(script), problem)
      ensures fs == old(fs).(candidates := fs.candidates)
      ensures problem.Some? ==> fs == old(fs)
      ensures problem.None? ==> forall path: Path ::
        Candidates(fs, path) == if path.service == op.service then {Binding(old(fs), path)} else Candidates(old(fs), path)
      ensures point == AtCloseDirectory(directory, if problem.Some? then Reject(op, problem.value) else Stored)
    {
      hide Consistent, Accounted;
      var outcome := Invoke(Fsync(directory));
      problem := Problem(outcome);
    }
  }
}
