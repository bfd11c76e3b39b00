/**
 The managed directories, call by call: internal/backend/fs/directory_linux.go.

 The store takes `prepareDirectories` as one call. Here its own calls are followed, each of which may
 fail; every run of them is one of the outcomes which that one call allows.
 */
module Directories {
  import opened Wrappers
  import opened Errors
  import opened Filesystem
  import LinuxSystem

  /** Only directories and descriptors may differ. */
  predicate SameStore(before: Fs, after: Fs) {
    after == before.(directories := after.directories, open := after.open, nextDescriptor := after.nextDescriptor)
  }

  /** No descriptor is open that has not been handed out. */
  predicate Numbered(fs: Fs) {
    forall descriptor <- fs.open :: descriptor < fs.nextDescriptor
  }

  /** No fault pretends that something is missing or in the way. */
  ghost predicate Honest(faults: nat -> Option<Error>) {
    forall n :: faults(n).Some? ==> LinuxSystem.Plain(faults(n).value)
  }

  /** No call fails of itself. */
  ghost predicate Quiet(faults: nat -> Option<Error>) {
    forall n :: faults(n).None?
  }

  /** What the latest call reported; the results of closing are never looked at. */
  datatype Report = Fine | Refused(error: Error) | Shown(meta: Meta)

  predicate PrivateFolder(meta: Meta, uid: nat) {
    meta.kind == Folder && meta.uid == uid && meta.mode % 64 == 0
  }

  /** The failure stands for the latest report: a refused call, or a folder that is not private. */
  ghost predicate Says(report: Report, uid: nat, err: Error) {
    match report
    case Fine => false
    case Shown(meta) => !PrivateFolder(meta, uid) && Exactly(err, InsecureFallback)
    case Refused(cause) =>
      && Keeps(err, cause)
      && forall number: SystemNumber | cause == Errno(number) ::
           if number == ENOENT then HasNoCategory(err) else Exactly(err, NumberCategory(number))
  }

  /** The system calls; the n-th one fails where the script says so. */
  class Kernel {
    var fs: Fs
    const faults: nat -> Option<Error>
    var calls: nat
    ghost var latest: Report

    constructor (fs: Fs, faults: nat -> Option<Error>)
      ensures this.fs == fs && this.faults == faults
    {
      this.fs, this.faults, calls, latest := fs, faults, 0, Fine;
    }

    method Fault() returns (problem: Option<Error>)
      modifies this`calls
      ensures Quiet(faults) ==> problem.None?
      ensures Honest(faults) && problem.Some? ==> LinuxSystem.Plain(problem.value)
    {
      problem := faults(calls);
      calls := calls + 1;
    }

    /** `os.MkdirAll` on the root: a folder that is there, also behind a link, will do. */
    method MkdirAll() returns (problem: Option<Error>)
      modifies this
      ensures problem.None? ==> fs == WithDirectory(old(fs), Root)
      ensures problem.Some? ==> fs == old(fs)
      ensures Reported(latest, problem)
      ensures Quiet(faults) && problem.Some? ==>
        Root in fs.directories && fs.directories[Root].kind != Folder && problem.value == Errno(ENOTDIR)
      ensures Honest(faults) && problem.Some? ==> LinuxSystem.Plain(problem.value)
    {
      problem := Fault();
      latest := if problem.Some? then Refused(problem.value) else Fine;
      if problem.Some? {
        return;
      }
      if Root in fs.directories && fs.directories[Root].kind != Folder && fs.directories[Root].kind != Symlink {
        latest := Refused(Errno(ENOTDIR));
        return Some(Errno(ENOTDIR));
      }
      fs := WithDirectory(fs, Root);
    }

    /** `open` and `openat` with O_DIRECTORY and O_NOFOLLOW. */
    method Open(directory: Directory) returns (result: Result<int, Error>)
      requires Numbered(fs)
      modifies this
      ensures match result
              case Success(descriptor) =>
                && directory in fs.directories && fs.directories[directory].kind == Folder
                && descriptor == old(fs).nextDescriptor
                && fs == old(fs).(open := old(fs).open[descriptor := DirectoryHandle(directory)],
                                  nextDescriptor := old(fs).nextDescriptor + 1)
              case Failure(err) =>
                && fs == old(fs) && latest == Refused(err)
                && (Quiet(faults) ==> Unopenable(fs, directory, err))
                && (Honest(faults) ==> LinuxSystem.NotMisleading(err))
                && (Honest(faults) && Is(err, Std(NotExist)) ==> directory !in fs.directories && err == Errno(ENOENT))
    {
      var problem := Fault();
      if problem.Some? {
        latest := Refused(problem.value);
        return Failure(problem.value);
      }
      if directory !in fs.directories {
        latest := Refused(Errno(ENOENT));
        return Failure(Errno(ENOENT));
      }
      if fs.directories[directory].kind == Symlink {
        latest := Refused(Errno(ELOOP));
        return Failure(Errno(ELOOP));
      }
      if fs.directories[directory].kind != Folder {
        latest := Refused(Errno(ENOTDIR));
        return Failure(Errno(ENOTDIR));
      }
      result := Success(fs.nextDescriptor);
      fs := fs.(open := fs.open[fs.nextDescriptor := DirectoryHandle(directory)], nextDescriptor := fs.nextDescriptor + 1);
    }

    method Mkdirat(directory: Directory) returns (problem: Option<Error>)
      modifies this
      ensures problem.None? ==> fs == WithDirectory(old(fs), directory)
      ensures problem.Some? ==> fs == old(fs)
      ensures Reported(latest, problem)
      ensures Quiet(faults) && problem.Some? ==> directory in fs.directories && problem.value == Errno(EEXIST)
      ensures Honest(faults) && problem.Some? && Is(problem.value, Std(Exist)) ==> directory in fs.directories
      ensures Honest(faults) && problem.Some? && !Is(problem.value, Std(Exist)) ==> LinuxSystem.Plain(problem.value)
    {
      problem := Fault();
      latest := if problem.Some? then Refused(problem.value) else Fine;
      if problem.Some? {
        return;
      }
      if directory in fs.directories {
        latest := Refused(Errno(EEXIST));
        return Some(Errno(EEXIST));
      }
      fs := WithDirectory(fs, directory);
    }

    method Fstat(descriptor: int, ghost directory: Directory) returns (result: Result<Meta, Error>)
      requires IsDirectory(fs, descriptor, directory) && directory in fs.directories
      modifies this`calls, this`latest
      ensures latest == match result case Success(meta) => Shown(meta) case Failure(err) => Refused(err)
      ensures result.Success? ==> result.value == fs.directories[directory]
      ensures Quiet(faults) ==> result.Success?
      ensures Honest(faults) && result.Failure? ==> LinuxSystem.Plain(result.error)
    {
      var problem := Fault();
      if problem.Some? {
        latest := Refused(problem.value);
        return Failure(problem.value);
      }
      latest := Shown(fs.directories[fs.open[descriptor].directory]);
      return Success(fs.directories[fs.open[descriptor].directory]);
    }

    /** `close` releases the descriptor, whatever it reports; its callers here never look. */
    method Close(descriptor: int)
      requires descriptor in fs.open
      modifies this`fs, this`calls
      ensures fs == old(fs).(open := old(fs).open - {descriptor})
    {
      var _ := Fault();
      fs := fs.(open := fs.open - {descriptor});
    }
  }

  predicate Reported(report: Report, problem: Option<Error>) {
    problem.Some? ==> report == Refused(problem.value)
  }

  /** What the file system itself says of a folder that cannot be opened. */
  predicate Unopenable(fs: Fs, directory: Directory, err: Error) {
    if directory !in fs.directories then
      err == Errno(ENOENT)
    else
      fs.directories[directory].kind != Folder && (err == Errno(ELOOP) || err == Errno(ENOTDIR))
  }

  function DirectoryError(err: Error): Error {
    if Is(err, Std(NotExist)) then Annotate(err)
    else if Is(err, Std(Permission)) then Tag(PermissionDenied, err)
    else if Is(err, Std(Exist)) || Is(err, Errno(ELOOP)) || Is(err, Errno(ENOTDIR)) then Tag(InsecureFallback, err)
    else Tag(BackendFailure, err)
  }

  /** The category of each system error but a missing directory. */
  function NumberCategory(number: SystemNumber): Category {
    if number in {EACCES, EPERM} then PermissionDenied
    else if number in {EEXIST, ENOTEMPTY, ELOOP, ENOTDIR} then InsecureFallback
    else BackendFailure
  }

  lemma NumberIsTagged(number: SystemNumber)
    ensures DirectoryError(Errno(number)) ==
            if number == ENOENT then Annotate(Errno(number)) else Tag(NumberCategory(number), Errno(number))
  {
    hide Tag, Annotate;
  }

  /** What each system error says about a managed directory: a missing one carries no category yet. */
  lemma NumbersAreClassified(number: SystemNumber, category: Category)
    ensures IsCategory(DirectoryError(Errno(number)), category) <==> number != ENOENT && category == NumberCategory(number)
  {
    hide Tag, Is, DirectoryError, NumberCategory;
    NumberIsTagged(number);
    TaggedNumber(NumberCategory(number), number, category);
    NumberIsPlain(number, category);
    WrappedIs(Errno(number), Portable(category));
  }

  lemma DirectoryErrorKeeps(err: Error)
    ensures LinuxSystem.NotMisleading(err) ==> LinuxSystem.NotMisleading(DirectoryError(err))
    ensures Is(DirectoryError(err), Std(NotExist)) ==> Is(err, Std(NotExist))
    ensures LinuxSystem.NotMisleading(err) ==> LinuxSystem.NotMisleading(Annotate(err))
    ensures Is(Annotate(err), Std(NotExist)) ==> Is(err, Std(NotExist))
  {
    hide Is;
    forall target: Error | target.Portable? || target.Std?
      ensures Is(Annotate(err), target) <==> Is(err, target)
      ensures forall category: Category :: Is(Tag(category, err), target) <==> target == Portable(category) || Is(err, target)
    {
      WrappedIs(err, target);
    }
  }

  lemma WrappedIs(err: Error, target: Error)
    requires target.Portable? || target.Std?
    ensures Is(Annotate(err), target) <==> Is(err, target)
    ensures forall category: Category :: Is(Tag(category, err), target) <==> target == Portable(category) || Is(err, target)
  {
    forall category: Category
      ensures Is(Tag(category, err), target) <==> target == Portable(category) || Is(err, target)
    {
      assert Is(Portable(category), target) <==> target == Portable(category);
    }
  }

  lemma MissingHasNoCategory()
    ensures HasNoCategory(Annotate(Errno(ENOENT)))
    ensures Is(Annotate(Errno(ENOENT)), Std(NotExist))
  {
  }

  lemma DirectoryErrorKeepsCause(err: Error)
    ensures Keeps(DirectoryError(err), err)
    ensures Keeps(Annotate(err), err)
  {
    hide IsCategory;
    forall target: Error | Is(err, target)
      ensures Is(Annotate(err), target)
      ensures forall category: Category :: Is(Tag(category, err), target)
    {
    }
  }

  /** A refused call is answered for what it is. */
  lemma RefusalIsSaid(err: Error, uid: nat)
    ensures Says(Refused(err), uid, DirectoryError(err))
  {
    hide Is, IsCategory, DirectoryError, NumberCategory, Keeps;
    DirectoryErrorKeepsCause(err);
    forall number: SystemNumber, other: Category | err == Errno(number)
      ensures IsCategory(DirectoryError(err), other) <==> number != ENOENT && other == NumberCategory(number)
    {
      NumbersAreClassified(number, other);
    }
  }

  /** A node around the failure, as `prepareDirectories` adds, says the same. */
  lemma AnnotatedSays(report: Report, uid: nat, err: Error)
    requires Says(report, uid, err)
    ensures Says(report, uid, Annotate(err))
  {
    hide IsCategory, NumberCategory, Is;
    DirectoryErrorKeepsCause(err);
    forall other: Category
      ensures IsCategory(Annotate(err), other) <==> IsCategory(err, other)
    {
      AnnotatedCategory(err, other);
    }
  }

  lemma AnnotatedExactly(err: Error)
    ensures Exactly(err, InsecureFallback) ==> Exactly(Annotate(err), InsecureFallback)
  {
    hide IsCategory;
    forall other: Category
      ensures IsCategory(Annotate(err), other) <==> IsCategory(err, other)
    {
      AnnotatedCategory(err, other);
    }
  }

  lemma AnnotatedCategory(err: Error, category: Category)
    ensures IsCategory(Annotate(err), category) <==> IsCategory(err, category)
  {
  }

  /** `validateDirectory`: accepts exactly a private folder of the effective user. */
  method ValidateDirectory(kernel: Kernel, descriptor: int, effectiveUID: nat, ghost directory: Directory)
    returns (problem: Option<Error>)
    requires IsDirectory(kernel.fs, descriptor, directory) && directory in kernel.fs.directories
    modifies kernel`calls, kernel`latest
    ensures problem.None? ==> SecureMeta(kernel.fs.directories[directory], Folder, effectiveUID)
    ensures problem.Some? ==> Says(kernel.latest, effectiveUID, problem.value)
    ensures Quiet(kernel.faults) ==>
      && (problem.None? <==> PrivateFolder(kernel.fs.directories[directory], effectiveUID))
      && (problem.Some? ==> Exactly(problem.value, InsecureFallback) && problem.value == INSECURE)
    ensures Honest(kernel.faults) && problem.Some? ==> LinuxSystem.Plain(problem.value)
  {
    hide LinuxSystem.Plain, LinuxSystem.NotMisleading, Is, DirectoryError, Honest, Quiet, Exactly, Keeps, NumberCategory;
    LinuxSystem.InsecureIsPlain();
    FaultIsExactly(InsecureFallback);
    var status := kernel.Fstat(descriptor, directory);
    if status.Failure? {
      PlainStays(status.error);
      RefusalIsSaid(status.error, effectiveUID);
      return Some(DirectoryError(status.error));
    }
    if status.value.kind != Folder {
      return Some(INSECURE);
    }
    if status.value.uid != effectiveUID {
      return Some(INSECURE);
    }
    if status.value.mode % 64 != 0 {
      return Some(INSECURE);
    }
    return None;
  }

  lemma PlainStays(err: Error)
    ensures LinuxSystem.Plain(err) ==> LinuxSystem.Plain(DirectoryError(err)) && LinuxSystem.Plain(Annotate(err))
  {
    DirectoryErrorKeeps(err);
  }

  /** Why a folder cannot be used, and how that is said: it is missing, or it is not private. */
  ghost predicate Unusable(fs: Fs, directory: Directory, err: Error) {
    && !SecureDirectory(fs, directory)
    && (Is(err, Std(NotExist)) <==> directory !in fs.directories)
    && if directory in fs.directories then Exactly(err, InsecureFallback) else HasNoCategory(err)
  }

  lemma UnopenableIsUnusable(fs: Fs, directory: Directory, err: Error)
    requires Unopenable(fs, directory, err)
    ensures Unusable(fs, directory, DirectoryError(err))
  {
    hide Is, NumberCategory;
    MissingHasNoCategory();
    if directory in fs.directories {
      DirectoryErrorKeeps(err);
      LinkIsPresent();
      RefusalIsSaid(err, fs.uid);
      LoopsAreInsecure();
    } else {
      NumberIsTagged(ENOENT);
    }
  }

  lemma LinkIsPresent()
    ensures !Is(Errno(ELOOP), Std(NotExist)) && !Is(Errno(ENOTDIR), Std(NotExist))
  {
  }

  lemma LoopsAreInsecure()
    ensures NumberCategory(ELOOP) == InsecureFallback && NumberCategory(ENOTDIR) == InsecureFallback
  {
  }

  /** What is reported of a folder that was inspected never looks like its absence. */
  lemma InsecureIsPresent(err: Error)
    ensures err == INSECURE ==> !Is(err, Std(NotExist))
  {
  }

  /** `openDirectory` and `openDirectoryAt`: one more descriptor, or none; a folder that is not private is refused. */
  method OpenDirectoryAt(kernel: Kernel, directory: Directory) returns (result: Result<int, Error>)
    requires Numbered(kernel.fs)
    modifies kernel
    ensures SameStore(old(kernel.fs), kernel.fs) && Numbered(kernel.fs)
    ensures kernel.fs.directories == old(kernel.fs).directories
    ensures match result
            case Success(descriptor) =>
              && SecureDirectory(kernel.fs, directory)
              && descriptor == old(kernel.fs).nextDescriptor
              && kernel.fs.open == old(kernel.fs).open[descriptor := DirectoryHandle(directory)]
              && kernel.fs.nextDescriptor == old(kernel.fs).nextDescriptor + 1
            case Failure(err) =>
              && kernel.fs.open == old(kernel.fs).open
              && Says(kernel.latest, kernel.fs.uid, err)
              && (Quiet(kernel.faults) ==> Unusable(kernel.fs, directory, err))
              && (Honest(kernel.faults) ==> LinuxSystem.NotMisleading(err))
              && (Honest(kernel.faults) && Is(err, Std(NotExist)) ==>
                    directory !in kernel.fs.directories && err == Annotate(Errno(ENOENT)))
  {
    hide LinuxSystem.NotMisleading, Is, Honest, Quiet, Says, Exactly, HasNoCategory;
    MissingStays();
    var granted := kernel.Open(directory);
    if granted.Failure? {
      DirectoryErrorKeeps(granted.error);
      RefusalIsSaid(granted.error, kernel.fs.uid);
      if Quiet(kernel.faults) {
        UnopenableIsUnusable(kernel.fs, directory, granted.error);
      }
      return Failure(DirectoryError(granted.error));
    }
    var problem := ValidateDirectory(kernel, granted.value, kernel.fs.uid, directory);
    if problem.Some? {
      InsecureIsPresent(problem.value);
      kernel.Close(granted.value);
      ClosedAgain(old(kernel.fs).open, granted.value, DirectoryHandle(directory));
      return Failure(problem.value);
    }
    return Success(granted.value);
  }

  lemma MissingStays()
    ensures Is(Errno(ENOENT), Std(NotExist))
  {
  }

  /** Opening a level, call by call, is one of the outcomes that the store's one-step view of it allows. */
  lemma OpeningAllowed(before: Fs, after: Fs, directory: Directory, result: Result<int, Error>, honest: bool)
    requires SameStore(before, after) && after.directories == before.directories
    requires match result
             case Success(descriptor) =>
               && SecureDirectory(before, directory) && descriptor == before.nextDescriptor
               && after.open == before.open[descriptor := DirectoryHandle(directory)]
               && after.nextDescriptor == before.nextDescriptor + 1
             case Failure(err) =>
               && after.open == before.open
               && (honest ==> LinuxSystem.NotMisleading(err))
               && (honest && Is(err, Std(NotExist)) ==> directory !in before.directories && err == Annotate(Errno(ENOENT)))
    ensures exists fault: Option<Error> ::
              && OpenDirectory(before, directory, fault)
                 == (if result.Success? then (after, Opened(result.value))
                     else (after.(nextDescriptor := before.nextDescriptor), Failed(result.error)))
              && (honest && fault.Some? ==> LinuxSystem.Plain(fault.value))
  {
    hide LinuxSystem.NotMisleading, Is;
    var fault := if result.Success? || (honest && Is(result.error, Std(NotExist))) then None else Some(result.error);
    assert OpenDirectory(before, directory, fault)
           == if result.Success? then (after, Opened(result.value))
              else (after.(nextDescriptor := before.nextDescriptor), Failed(result.error));
    assert honest && fault.Some? ==> LinuxSystem.Plain(fault.value);
  }

  lemma ClosedAgain(open: map<int, Handle>, descriptor: int, handle: Handle)
    requires descriptor !in open
    ensures open[descriptor := handle] - {descriptor} == open
  {
  }

  /** Missing, so that it can be made, or private already. */
  predicate Providable(fs: Fs, directory: Directory) {
    directory in fs.directories ==> SecureDirectory(fs, directory)
  }

  lemma NewIsSecure(fs: Fs, directory: Directory)
    ensures directory !in fs.directories ==> SecureDirectory(WithDirectory(fs, directory), directory)
    ensures directory in fs.directories ==> WithDirectory(fs, directory) == fs
    ensures directory in WithDirectory(fs, directory).directories
    ensures Is(Errno(EEXIST), Std(Exist)) 
  {
  }

  /** Making one level does not change what can be said of another. */
  lemma OtherLevel(fs: Fs, after: Fs, made: Directory, other: Directory)
    requires after.directories in {fs.directories, WithDirectory(fs, made).directories} && after.uid == fs.uid
    requires made != other
    ensures Providable(after, other) <==> Providable(fs, other)
  {
  }

  lemma AllProvidable(fs: Fs, service: string)
    ensures LinuxSystem.DirectoriesAcceptable(fs, service)
       <==> Providable(fs, Root) && Providable(fs, Version) && Providable(fs, Service(service))
  {
    hide SecureDirectory;
  }

  lemma RootTaken(fs: Fs, service: string, problem: Error)
    requires Root in fs.directories && fs.directories[Root].kind != Folder && problem == Errno(ENOTDIR)
    ensures !LinuxSystem.DirectoriesAcceptable(fs, service)
    ensures Exactly(DirectoryError(problem), InsecureFallback)
  {
    hide Is, NumberCategory;
    RefusalIsSaid(problem, fs.uid);
    LoopsAreInsecure();
  }

  /** `openOrCreateDirectory`: the folder is there and private afterwards, or the failure is not about its absence. */
  method OpenOrCreateDirectory(kernel: Kernel, directory: Directory) returns (result: Result<int, Error>)
    requires Numbered(kernel.fs)
    modifies kernel
    ensures SameStore(old(kernel.fs), kernel.fs) && Numbered(kernel.fs)
    ensures kernel.fs.directories in {old(kernel.fs).directories, WithDirectory(old(kernel.fs), directory).directories}
    ensures match result
            case Success(descriptor) =>
              && SecureDirectory(kernel.fs, directory)
              && descriptor !in old(kernel.fs).open
              && kernel.fs.open == old(kernel.fs).open[descriptor := DirectoryHandle(directory)]
            case Failure(err) =>
              && kernel.fs.open == old(kernel.fs).open
              && Says(kernel.latest, kernel.fs.uid, err)
              && (Quiet(kernel.faults) ==> Exactly(err, InsecureFallback))
              && (Honest(kernel.faults) ==> LinuxSystem.Plain(err))
    ensures Quiet(kernel.faults) ==> (result.Success? <==> Providable(old(kernel.fs), directory))
  {
    hide LinuxSystem.NotMisleading, Is, DirectoryError, Honest, Quiet, Says, Exactly, HasNoCategory;
    NewIsSecure(kernel.fs, directory);
    result := OpenDirectoryAt(kernel, directory);
    if result.Success? {
      return;
    }
    if !Is(result.error, Std(NotExist)) {
      return;
    }
    var problem := kernel.Mkdirat(directory);
    if problem.Some? && !Is(problem.value, Std(Exist)) {
      PlainStays(problem.value);
      RefusalIsSaid(problem.value, kernel.fs.uid);
      return Failure(DirectoryError(problem.value));
    }
    result := OpenDirectoryAt(kernel, directory);
  }

  /** An outcome that the store's one-step view of this procedure allows. */
  ghost predicate Allowed(before: Fs, directories: map<Directory, Meta>, service: string, problem: Option<Error>, honest: bool) {
    exists fault: Option<Error>, limit: nat ::
      && Prepare(before, service, fault, limit)
         == (before.(directories := directories), if problem.Some? then Failed(problem.value) else Done)
      && (honest && fault.Some? ==> LinuxSystem.Plain(fault.value))
  }

  lemma AllowedAt(before: Fs, directories: map<Directory, Meta>, service: string, problem: Option<Error>, honest: bool, limit: nat)
    requires Prepare(before, service, problem, limit)
             == (before.(directories := directories), if problem.Some? then Failed(problem.value) else Done)
    requires honest && problem.Some? ==> LinuxSystem.Plain(problem.value)
    ensures Allowed(before, directories, service, problem, honest)
  {
    hide Prepare, LinuxSystem.Plain;
  }

  /** A level that was made just now is private; one that was there already is unchanged. */
  lemma MadeOrThere(fs: Fs, directory: Directory)
    ensures WithDirectory(fs, directory) == fs || SecureDirectory(WithDirectory(fs, directory), directory)
    ensures WithDirectory(fs, directory) == fs.(directories := WithDirectory(fs, directory).directories)
  {
  }

  function RootMade(fs: Fs): Fs {
    WithDirectory(fs, Root)
  }

  function VersionMade(fs: Fs): Fs {
    WithDirectory(RootMade(fs), Version)
  }

  function ServiceMade(fs: Fs, service: string): Fs {
    WithDirectory(VersionMade(fs), Service(service))
  }

  /** Failing before, at or right after making the root. */
  lemma FailedAtRoot(before: Fs, directories: map<Directory, Meta>, service: string, err: Error, honest: bool)
    requires directories == before.directories || directories == RootMade(before).directories
    requires honest ==> LinuxSystem.Plain(err)
    ensures Allowed(before, directories, service, Some(err), honest)
  {
    hide SecureDirectory, LinuxSystem.Plain, Allowed, WithDirectory;
    MadeOrThere(before, Root);
    AllowedAt(before, directories, service, Some(err), honest, if directories == before.directories then 0 else 1);
  }

  /** Failing at the version level, under a private root. */
  lemma FailedAtVersion(before: Fs, directories: map<Directory, Meta>, service: string, err: Error, honest: bool)
    requires SecureDirectory(RootMade(before), Root)
    requires directories == RootMade(before).directories || directories == VersionMade(before).directories
    requires honest ==> LinuxSystem.Plain(err)
    ensures Allowed(before, directories, service, Some(err), honest)
  {
    hide SecureDirectory, LinuxSystem.Plain, Allowed, WithDirectory;
    MadeOrThere(before, Root);
    MadeOrThere(RootMade(before), Version);
    AllowedAt(before, directories, service, Some(err), honest, if directories == RootMade(before).directories then 1 else 2);
  }

  /** Failing at the service level, under private directories. */
  lemma FailedAtService(before: Fs, directories: map<Directory, Meta>, service: string, err: Error, honest: bool)
    requires SecureDirectory(RootMade(before), Root) && SecureDirectory(VersionMade(before), Version)
    requires directories == VersionMade(before).directories || directories == ServiceMade(before, service).directories
    requires honest ==> LinuxSystem.Plain(err)
    ensures Allowed(before, directories, service, Some(err), honest)
  {
    hide SecureDirectory, LinuxSystem.Plain, Allowed, WithDirectory;
    MadeOrThere(before, Root);
    MadeOrThere(RootMade(before), Version);
    MadeOrThere(VersionMade(before), Service(service));
    AllowedAt(before, directories, service, Some(err), honest, if directories == VersionMade(before).directories then 2 else 3);
  }

  lemma AllMade(before: Fs, service: string, honest: bool)
    requires SecureDirectory(RootMade(before), Root) && SecureDirectory(VersionMade(before), Version)
    requires SecureDirectory(ServiceMade(before, service), Service(service))
    ensures Allowed(before, ServiceMade(before, service).directories, service, None, honest)
  {
    hide SecureDirectory, LinuxSystem.Plain, Allowed, WithDirectory;
    MadeOrThere(before, Root);
    MadeOrThere(RootMade(before), Version);
    MadeOrThere(VersionMade(before), Service(service));
    AllowedAt(before, ServiceMade(before, service).directories, service, None, honest, 0);
  }

  /** A level that turned out private was made or was there: either way it is as if it had just been provided. */
  lemma SecureAgain(made: Fs, after: Fs, directory: Directory)
    requires after.directories in {made.directories, WithDirectory(made, directory).directories}
    requires after.uid == made.uid && SecureDirectory(after, directory)
    ensures after.directories == WithDirectory(made, directory).directories
    ensures SecureDirectory(WithDirectory(made, directory), directory)
  {
  }

  lemma SameUid(fs: Fs)
    ensures RootMade(fs).uid == fs.uid && VersionMade(fs).uid == fs.uid
  {
  }

  lemma ProvidedAlike(made: Fs, other: Fs, directory: Directory)
    requires made.directories == other.directories && made.uid == other.uid
    ensures WithDirectory(made, directory).directories == WithDirectory(other, directory).directories
  {
  }

  /** The last level, opened only to be looked at. */
  method PrepareService(kernel: Kernel, service: string, ghost before: Fs) returns (problem: Option<Error>)
    requires Numbered(kernel.fs)
    requires kernel.fs.uid == before.uid && kernel.fs.directories == VersionMade(before).directories
    requires SecureDirectory(RootMade(before), Root) && SecureDirectory(VersionMade(before), Version)
    modifies kernel
    ensures kernel.fs.open == old(kernel.fs).open && SameStore(old(kernel.fs), kernel.fs)
    ensures Allowed(before, kernel.fs.directories, service, problem, Honest(kernel.faults))
    ensures problem.Some? ==> Says(kernel.latest, kernel.fs.uid, problem.value)
    ensures Quiet(kernel.faults) ==> (problem.None? <==> Providable(old(kernel.fs), Service(service)))
    ensures Quiet(kernel.faults) && problem.Some? ==> Exactly(problem.value, InsecureFallback)
  {
    hide LinuxSystem.Plain, Honest, Allowed, SecureDirectory, WithDirectory, Quiet, Says, Exactly;
    SameUid(before);
    ProvidedAlike(VersionMade(before), kernel.fs, Service(service));
    var last := OpenOrCreateDirectory(kernel, Service(service));
    if last.Failure? {
      PlainStays(last.error);
      FailedAtService(before, kernel.fs.directories, service, Annotate(last.error), Honest(kernel.faults));
      AnnotatedSays(kernel.latest, kernel.fs.uid, last.error);
      AnnotatedExactly(last.error);
      return Some(Annotate(last.error));
    }
    SecureAgain(VersionMade(before), kernel.fs, Service(service));
    AllMade(before, service, Honest(kernel.faults));
    kernel.Close(last.value);
    ClosedAgain(old(kernel.fs).open, last.value, DirectoryHandle(Service(service)));
    return None;
  }

  /** The levels below the root, and their descriptors closed again. */
  method PrepareLevels(kernel: Kernel, service: string, ghost before: Fs) returns (problem: Option<Error>)
    requires Numbered(kernel.fs)
    requires kernel.fs.uid == before.uid && kernel.fs.directories == RootMade(before).directories
    requires SecureDirectory(RootMade(before), Root)
    modifies kernel
    ensures kernel.fs.open == old(kernel.fs).open && SameStore(old(kernel.fs), kernel.fs)
    ensures Allowed(before, kernel.fs.directories, service, problem, Honest(kernel.faults))
    ensures problem.Some? ==> Says(kernel.latest, kernel.fs.uid, problem.value)
    ensures Quiet(kernel.faults) ==> (problem.None? <==> Providable(old(kernel.fs), Version) && Providable(old(kernel.fs), Service(service)))
    ensures Quiet(kernel.faults) && problem.Some? ==> Exactly(problem.value, InsecureFallback)
  {
    hide LinuxSystem.Plain, Honest, Allowed, SecureDirectory, WithDirectory, Quiet, Says, Exactly;
    SameUid(before);
    ProvidedAlike(RootMade(before), kernel.fs, Version);
    var version := OpenOrCreateDirectory(kernel, Version);
    if version.Failure? {
      PlainStays(version.error);
      FailedAtVersion(before, kernel.fs.directories, service, Annotate(version.error), Honest(kernel.faults));
      AnnotatedSays(kernel.latest, kernel.fs.uid, version.error);
      AnnotatedExactly(version.error);
      return Some(Annotate(version.error));
    }
    SecureAgain(RootMade(before), kernel.fs, Version);
    OtherLevel(old(kernel.fs), kernel.fs, Version, Service(service));
    problem := PrepareService(kernel, service, before);
    kernel.Close(version.value);
    ClosedAgain(old(kernel.fs).open, version.value, DirectoryHandle(Version));
  }

  /**
   `prepareDirectories`: closes everything it opened, and does nothing that the one-step view does
   not allow: the same directories, the same result, and no failure out of an honest system that
   pretends something is missing.
   */
  method PrepareDirectories(kernel: Kernel, service: string) returns (problem: Option<Error>)
    requires Numbered(kernel.fs)
    modifies kernel
    ensures kernel.fs.open == old(kernel.fs).open && SameStore(old(kernel.fs), kernel.fs)
    ensures Allowed(old(kernel.fs), kernel.fs.directories, service, problem, Honest(kernel.faults))
    ensures problem.Some? ==> Says(kernel.latest, kernel.fs.uid, problem.value)
    ensures Quiet(kernel.faults) ==>
      && (problem.None? <==> LinuxSystem.DirectoriesAcceptable(old(kernel.fs), service))
      && (problem.Some? ==> Exactly(problem.value, InsecureFallback))
  {
    hide LinuxSystem.Plain, LinuxSystem.NotMisleading, Is, Honest, Allowed, SecureMeta, DirectoryError, Quiet, Says, Exactly;
    ghost var before := kernel.fs;
    problem := kernel.MkdirAll();
    if problem.Some? {
      PlainStays(problem.value);
      FailedAtRoot(before, kernel.fs.directories, service, DirectoryError(problem.value), Honest(kernel.faults));
      RefusalIsSaid(problem.value, kernel.fs.uid);
      if Quiet(kernel.faults) {
        RootTaken(before, service, problem.value);
      }
      return Some(DirectoryError(problem.value));
    }
    AllProvidable(before, service);
    OtherLevel(before, kernel.fs, Root, Version);
    OtherLevel(before, kernel.fs, Root, Service(service));
    NewIsSecure(before, Root);
    var root := OpenDirectoryAt(kernel, Root);
    if root.Failure? {
      PresentIsPlain(root.error, kernel.fs, Root, Honest(kernel.faults));
      FailedAtRoot(before, kernel.fs.directories, service, Annotate(root.error), Honest(kernel.faults));
      AnnotatedSays(kernel.latest, kernel.fs.uid, root.error);
      AnnotatedExactly(root.error);
      return Some(Annotate(root.error));
    }
    problem := PrepareLevels(kernel, service, before);
    kernel.Close(root.value);
    ClosedAgain(before.open, root.value, DirectoryHandle(Root));
  }

  lemma PresentIsPlain(err: Error, fs: Fs, directory: Directory, honest: bool)
    requires directory in fs.directories
    requires honest ==> LinuxSystem.NotMisleading(err)
    requires honest && Is(err, Std(NotExist)) ==> directory !in fs.directories
    ensures honest ==> LinuxSystem.Plain(Annotate(err))
  {
    hide Is;
    DirectoryErrorKeeps(err);
  }
}
