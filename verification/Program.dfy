/**
 The control flow of internal/backend/fs/storage_linux.go, one point per pending system call.

 `CallOf` is the call a Get, Set or Delete is about to make and `Next` where it goes with the outcome.
 The methods of `Storage` are checked against these two functions call by call, and `Machine` runs any
 number of them interleaved.
 */
module Program {
  import opened Wrappers
  import opened Errors
  import opened Filesystem
  import opened Layout

  const ATTEMPTS: nat := 128  // temporaryCreateAttempts

  datatype Op =
    | Get(service: string, digest: Digest)
    | Set(service: string, digest: Digest, value: Bytes)
    | Delete(service: string, digest: Digest)

  datatype Reply = Value(contents: Bytes) | Stored | Rejected(error: Error)

  /** `seen` is the inode that validation found under the name, if any. */
  datatype Point =
    | AtMount
    | AtPrepare
    | AtRoot
    | AtVersion(root: int)
    | AtService(root: int, version: int)
    | AtCloseVersion(root: int, version: int, result: Result<int, Error>)
    | AtCloseRoot(root: int, result: Result<int, Error>)
    | AtOpen(directory: int)
    | AtStat(directory: int, descriptor: int)
    | AtCloseInvalid(directory: int, descriptor: int, problem: Error)
    | AtRead(directory: int, descriptor: int, contents: Bytes)
    | AtCloseRead(directory: int, descriptor: int, contents: Bytes, readProblem: Option<Error>)
    | AtCloseChecked(directory: int, descriptor: int, inode: Inode)
    | AtRandom(directory: int, seen: Option<Inode>, attempt: nat)
    | AtCreate(directory: int, seen: Option<Inode>, attempt: nat, temporary: string)
    | AtChmod(directory: int, seen: Option<Inode>, temporary: string, descriptor: int)
    | AtWrite(directory: int, seen: Option<Inode>, temporary: string, descriptor: int, rest: Bytes)
    | AtSyncFile(directory: int, seen: Option<Inode>, temporary: string, descriptor: int)
    | AtCloseFile(directory: int, seen: Option<Inode>, temporary: string, descriptor: int)
    | AtRename(directory: int, seen: Option<Inode>, temporary: string)
    | AtSyncDirectory(directory: int)
    | AtCleanupClose(directory: int, temporary: string, descriptor: int, problem: Error)
    | AtCleanupUnlink(directory: int, temporary: string, problem: Error)
    | AtUnlink(directory: int, target: Inode)
    | AtCloseDirectory(directory: int, reply: Reply)
    | Finished(reply: Reply)

  function Name(op: Op): string {
    Hex(op.digest)
  }

  function PathFor(op: Op): Path {
    Path(op.service, Name(op))
  }

  /** `operationError` for a non-nil error. */
  function OperationError(missingIsNotFound: bool, err: Error): Error {
    if missingIsNotFound && Is(err, Std(NotExist)) then
      Tag(NotFound, err)
    else if Is(err, Std(Permission)) then
      Tag(PermissionDenied, err)
    else if Is(err, Errno(ELOOP)) || Is(err, Errno(ENOTDIR)) || Is(err, Errno(EISDIR)) then
      Tag(InsecureFallback, err)
    else if
      || IsCategory(err, InvalidArgument)
      || IsCategory(err, InsecureFallback)
      || IsCategory(err, PermissionDenied)
      || IsCategory(err, BackendUnavailable)
      || IsCategory(err, Unsupported)
      || IsCategory(err, BackendFailure)
    then
      Annotate(err)
    else
      Tag(BackendFailure, err)
  }

  function Reject(op: Op, err: Error): Reply {
    Rejected(OperationError(!op.Set?, err))
  }

  const NO_TEMPORARY := Other(1, true)

  /** `validateCredential` on what fstat reported. */
  function CredentialProblem(meta: Meta, uid: nat): Option<Error> {
    if SecureMeta(meta, Regular, uid) then None else Some(INSECURE)
  }

  /** Where each operation goes once `openCredential` has returned an error. */
  function AfterOpenFailure(op: Op, directory: int, err: Error): Point {
    if op.Set? && Is(err, Std(NotExist)) then
      AtRandom(directory, None, 0)
    else
      AtCloseDirectory(directory, Reject(op, err))
  }

  /** Where each operation goes once `openCredential` has returned a descriptor. */
  function AfterOpen(op: Op, directory: int, descriptor: int, inode: Inode): Point {
    if op.Get? then AtRead(directory, descriptor, []) else AtCloseChecked(directory, descriptor, inode)
  }

  /** Where each operation goes once `openServiceDirectory` has returned. */
  function AfterService(op: Op, result: Result<int, Error>): Point {
    match result
    case Success(directory) => AtOpen(directory)
    case Failure(err) => Finished(Reject(op, err))
  }

  /** `writeAll` returning to `writeAtomic`, or going round again. */
  function AfterWrite(directory: int, seen: Option<Inode>, temporary: string, descriptor: int, rest: Bytes): Point {
    if rest == [] then
      AtSyncFile(directory, seen, temporary, descriptor)
    else
      AtWrite(directory, seen, temporary, descriptor, rest)
  }

  /** `errors.Join(err, other)` where only the second may be nil. */
  function JoinOptional(err: Error, other: Option<Error>): Error {
    match other case Some(second) => Join(err, second) case None => One(0, err)
  }

  /** The error of `writeAtomic` once its temporary has been unlinked, or could not be. */
  function AfterCleanup(err: Error, unlinkProblem: Option<Error>): Error {
    match unlinkProblem
    case None => One(0, err)
    case Some(problem) => if Is(problem, Std(NotExist)) then err else Join(err, problem)
  }

  /** What `get` returns once its file is read and closed. */
  function AfterReading(contents: Bytes, readProblem: Option<Error>, closeProblem: Option<Error>): Reply {
    match (readProblem, closeProblem)
    case (Some(err), _) => Rejected(OperationError(true, JoinOptional(err, closeProblem)))
    case (None, Some(err)) => Rejected(OperationError(true, One(0, err)))
    case (None, None) => Value(contents)
  }

  function CallOf(op: Op, point: Point): Call
    requires !point.Finished?
  {
    match point
    case AtMount => ValidateMount
    case AtPrepare => PrepareDirectories(op.service)
    case AtRoot => OpenRoot
    case AtVersion(root) => OpenVersion(root)
    case AtService(_, version) => OpenService(version, op.service)
    case AtCloseVersion(_, version, _) => Close(version)
    case AtCloseRoot(root, _) => Close(root)
    case AtOpen(directory) => OpenFile(directory, Name(op))
    case AtStat(_, descriptor) => Fstat(descriptor)
    case AtCloseInvalid(_, descriptor, _) => Close(descriptor)
    case AtRead(_, descriptor, _) => Read(descriptor)
    case AtCloseRead(_, descriptor, _, _) => Close(descriptor)
    case AtCloseChecked(_, descriptor, _) => Close(descriptor)
    case AtRandom(_, _, _) => ReadRandom
    case AtCreate(directory, _, _, temporary) => CreateFile(directory, temporary)
    case AtChmod(_, _, _, descriptor) => Fchmod(descriptor, SECRET_MODE)
    case AtWrite(_, _, _, descriptor, rest) => Write(descriptor, rest)
    case AtSyncFile(_, _, _, descriptor) => Fsync(descriptor)
    case AtCloseFile(_, _, _, descriptor) => Close(descriptor)
    case AtRename(directory, _, temporary) => Rename(directory, temporary, Name(op))
    case AtSyncDirectory(directory) => Fsync(directory)
    case AtCleanupClose(_, _, descriptor, _) => Close(descriptor)
    case AtCleanupUnlink(directory, temporary, _) => Unlink(directory, temporary)
    case AtUnlink(directory, _) => Unlink(directory, Name(op))
    case AtCloseDirectory(directory, _) => Close(directory)
  }

  /** The outcomes a call can have. */
  predicate Fits(call: Call, outcome: Outcome) {
    match call
    case OpenRoot => outcome.Opened? || outcome.Failed?
    case OpenVersion(_) => outcome.Opened? || outcome.Failed?
    case OpenService(_, _) => outcome.Opened? || outcome.Failed?
    case OpenFile(_, _) => outcome.Opened? || outcome.Failed?
    case CreateFile(_, _) => outcome.Opened? || outcome.Failed?
    case ReadRandom => outcome.Random? || outcome.Failed?
    case Fstat(_) => outcome.Status? || outcome.Failed?
    case Read(_) => outcome.Transferred? && (outcome.data == [] <==> outcome.count == 0)
    case Write(_, contents) => outcome.Transferred? && outcome.count <= |contents|
    case _ => outcome.Done? || outcome.Failed?
  }

  lemma ExecFits(fs: Fs, call: Call, fault: Disturbance)
    requires Callable(fs, call)
    ensures Fits(call, Exec(fs, call, fault).1)
  {
  }

  function Next(op: Op, uid: nat, point: Point, outcome: Outcome): Point
    requires !point.Finished?
    requires Fits(CallOf(op, point), outcome)
  {
    match point
    case AtMount =>
      if outcome.Failed? then Finished(Reject(op, outcome.error)) else if op.Set? then AtPrepare else AtRoot
    case AtPrepare =>
      if outcome.Failed? then Finished(Reject(op, outcome.error)) else AtRoot
    case AtRoot =>
      if outcome.Failed? then Finished(Reject(op, outcome.error)) else AtVersion(outcome.descriptor)
    case AtVersion(root) =>
      if outcome.Failed? then AtCloseRoot(root, Failure(outcome.error)) else AtService(root, outcome.descriptor)
    case AtService(root, version) =>
      AtCloseVersion(
        root, version, if outcome.Failed? then Failure(outcome.error) else Success(outcome.descriptor))
    case AtCloseVersion(root, _, result) => AtCloseRoot(root, result)
    case AtCloseRoot(_, result) => AfterService(op, result)
    case AtOpen(directory) =>
      if outcome.Failed? then
        AfterOpenFailure(op, directory, outcome.error)
      else
        AtStat(directory, outcome.descriptor)
    case AtStat(directory, descriptor) =>
      if outcome.Failed? then
        AtCloseInvalid(directory, descriptor, outcome.error)
      else
        (match CredentialProblem(outcome.meta, uid)
         case Some(problem) => AtCloseInvalid(directory, descriptor, problem)
         case None => AfterOpen(op, directory, descriptor, outcome.inode))
    case AtCloseInvalid(directory, _, problem) => AfterOpenFailure(op, directory, problem)
    case AtRead(directory, descriptor, contents) =>
      if outcome.problem.Some? || outcome.count == 0 then
        AtCloseRead(directory, descriptor, contents + outcome.data, outcome.problem)
      else
        AtRead(directory, descriptor, contents + outcome.data)
    case AtCloseRead(directory, _, contents, readProblem) =>
      AtCloseDirectory(
        directory,
        AfterReading(contents, readProblem, if outcome.Failed? then Some(outcome.error) else None))
    case AtCloseChecked(directory, _, inode) =>
      if outcome.Failed? then
        AtCloseDirectory(directory, Reject(op, outcome.error))
      else if op.Set? then
        AtRandom(directory, Some(inode), 0)
      else
        AtUnlink(directory, inode)
    case AtRandom(directory, seen, attempt) =>
      if outcome.Failed? then
        AtCloseDirectory(directory, Reject(op, outcome.error))
      else
        AtCreate(directory, seen, attempt, TemporaryName(outcome.bytes))
    case AtCreate(directory, seen, attempt, temporary) =>
      if outcome.Opened? then
        AtChmod(directory, seen, temporary, outcome.descriptor)
      else if Is(outcome.error, Std(Exist)) then
        if attempt + 1 < ATTEMPTS then
          AtRandom(directory, seen, attempt + 1)
        else
          AtCloseDirectory(directory, Reject(op, NO_TEMPORARY))
      else
        AtCloseDirectory(directory, Reject(op, outcome.error))
    case AtChmod(directory, seen, temporary, descriptor) =>
      if outcome.Failed? then
        AtCleanupClose(directory, temporary, descriptor, outcome.error)
      else
        AfterWrite(directory, seen, temporary, descriptor, if op.Set? then op.value else [])
    case AtWrite(directory, seen, temporary, descriptor, rest) =>
      if outcome.problem.Some? then
        AtCleanupClose(directory, temporary, descriptor, outcome.problem.value)
      else if outcome.count == 0 then
        AtCleanupClose(directory, temporary, descriptor, Std(ShortWrite))
      else
        AfterWrite(directory, seen, temporary, descriptor, rest[outcome.count..])
    case AtSyncFile(directory, seen, temporary, descriptor) =>
      if outcome.Failed? then
        AtCleanupClose(directory, temporary, descriptor, outcome.error)
      else
        AtCloseFile(directory, seen, temporary, descriptor)
    case AtCloseFile(directory, seen, temporary, _) =>
      if outcome.Failed? then
        AtCleanupUnlink(directory, temporary, outcome.error)
      else
        AtRename(directory, seen, temporary)
    case AtRename(directory, _, temporary) =>
      if outcome.Failed? then
        AtCleanupUnlink(directory, temporary, outcome.error)
      else
        AtSyncDirectory(directory)
    case AtSyncDirectory(directory) =>
      AtCloseDirectory(directory, if outcome.Failed? then Reject(op, outcome.error) else Stored)
    case AtCleanupClose(directory, temporary, _, problem) =>
      AtCleanupUnlink(
        directory, temporary, JoinOptional(problem, if outcome.Failed? then Some(outcome.error) else None))
    case AtCleanupUnlink(directory, _, problem) =>
      AtCloseDirectory(
        directory, Reject(op, AfterCleanup(problem, if outcome.Failed? then Some(outcome.error) else None)))
    case AtUnlink(directory, _) =>
      if outcome.Failed? then
        AtCloseDirectory(directory, Reject(op, outcome.error))
      else
        AtSyncDirectory(directory)
    case AtCloseDirectory(_, reply) => Finished(reply)
  }

  /** An operation matches `NotFound` exactly when its error matched it or a missing file counts as one. */
  lemma NotFoundExactly(missingIsNotFound: bool, err: Error)
    ensures IsCategory(OperationError(missingIsNotFound, err), NotFound)
       <==> IsCategory(err, NotFound) || (missingIsNotFound && Is(err, Std(NotExist)))
  {
    TagIs(NotFound, err, NotFound);
    TagIs(PermissionDenied, err, NotFound);
    TagIs(InsecureFallback, err, NotFound);
    TagIs(BackendFailure, err, NotFound);
  }

  /** The category of each system error. */
  function NumberCategory(missingIsNotFound: bool, number: SystemNumber): Category {
    if number == ENOENT && missingIsNotFound then NotFound
    else if number in {EACCES, EPERM} then PermissionDenied
    else if number in {ELOOP, ENOTDIR, EISDIR} then InsecureFallback
    else BackendFailure
  }

  lemma NumberIsTagged(missingIsNotFound: bool, number: SystemNumber)
    ensures OperationError(missingIsNotFound, Errno(number)) == Tag(NumberCategory(missingIsNotFound, number), Errno(number))
  {
    hide Tag, IsCategory;
    forall category: Category
      ensures !IsCategory(Errno(number), category)
    {
      NumberIsPlain(number, category);
    }
  }

  /** Every system error is reported under exactly one category. */
  lemma NumbersAreClassified(missingIsNotFound: bool, number: SystemNumber, category: Category)
    ensures IsCategory(OperationError(missingIsNotFound, Errno(number)), category) <==>
            category == NumberCategory(missingIsNotFound, number)
  {
    hide Tag, IsCategory, OperationError, NumberCategory;
    NumberIsTagged(missingIsNotFound, number);
    TaggedNumber(NumberCategory(missingIsNotFound, number), number, category);
  }

  /** The classification hides nothing: whatever the cause matched is still matched. */
  lemma OperationErrorKeepsCause(missingIsNotFound: bool, err: Error, target: Error)
    requires Is(err, target)
    ensures Is(OperationError(missingIsNotFound, err), target)
  {
  }
}
