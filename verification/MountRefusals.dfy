/**
 What an operation of the fallback answers when the mount check refuses its root:
 internal/backend/fs/storage_linux.go:194-197 and 364-385 over mount_linux.go:68-96 and 270-272.

 The check wraps its cause, and Get and Delete read a missing file anywhere in an error as a missing
 credential. A refusal for a missing mount table is therefore answered as not found, whatever is on
 disk; `InsecureFallback`, which every refusal keeps, tells that answer from a true one.
 */
module MountRefusals {
  import opened Wrappers
  import opened Errors
  import opened Filesystem
  import opened Program
  import opened LinuxSystem
  import Paths
  import MountInfo
  import Mounts = MountCheck

  /** The refusal as the program of the operation sees it. */
  function Refusal(err: Error): Disturbance {
    CALM.(error := Some(err))
  }

  function AfterRefusal(op: Op, fs: Fs, err: Error): Point {
    Next(op, fs.uid, AtMount, Exec(fs, Call.ValidateMount, Refusal(err)).1)
  }

  /** Whatever made the check refuse, the answer says so, and says not found exactly when the cause did. */
  lemma RefusalAnswered(op: Op, fs: Fs, err: Error)
    requires IsCategory(err, InsecureFallback)
    ensures HonestMount(Refusal(err))
    ensures AfterRefusal(op, fs, err) == Finished(Rejected(OperationError(!op.Set?, err)))
    ensures IsCategory(OperationError(!op.Set?, err), InsecureFallback)
    ensures IsCategory(OperationError(!op.Set?, err), NotFound)
       <==> IsCategory(err, NotFound) || (!op.Set? && Is(err, Std(NotExist)))
  {
    hide Is, OperationError;
    OperationErrorKeepsCause(!op.Set?, err, Portable(InsecureFallback));
    NotFoundExactly(!op.Set?, err);
  }

  /** The mount check at the head of an operation, and the program that it lets go on. */
  method Enter(op: Op, fs: Fs, root: string, env: Mounts.Environment)
    returns (refusal: Option<Error>, next: Point)
    ensures refusal.None? <==> Mounts.Acceptable(root, env)
    ensures refusal.None? ==> next == if op.Set? then AtPrepare else AtRoot
    ensures refusal.Some? ==>
      && HonestMount(Refusal(refusal.value))
      && next == Finished(Rejected(OperationError(!op.Set?, refusal.value)))
      && IsCategory(next.reply.error, InsecureFallback)
      && (IsCategory(next.reply.error, NotFound) <==>
            IsCategory(refusal.value, NotFound) || (!op.Set? && Mounts.LooksMissing(root, env)))
  {
    hide Is, OperationError, Mounts.Acceptable, Mounts.LooksMissing, Honest;
    refusal := Mounts.ValidateMount(root, env);
    if refusal.Some? {
      RefusalAnswered(op, fs, refusal.value);
      next := Finished(Reject(op, refusal.value));
    } else {
      next := if op.Set? then AtPrepare else AtRoot;
    }
  }

  /** An environment in which every path exists but the mount table does not. */
  function WithoutTable(device: MountInfo.Device): Mounts.Environment {
    Mounts.Environment(
      path => Success(path), path => Success(device), path => Success(path), Failure(Errno(ENOENT)))
  }

  lemma WithoutTableLooksMissing(root: string, device: MountInfo.Device)
    ensures !Mounts.Acceptable(root, WithoutTable(device))
    ensures Mounts.LooksMissing(root, WithoutTable(device))
  {
    hide Paths.CleanPath, Paths.Render;
    var env, path := WithoutTable(device), Paths.CleanPath(root);
    var deepest := Mounts.Ancestor(path, |path.parts|);
    assert Mounts.FoundAt(env, path, |path.parts|, deepest, device);
    assert Is(Errno(ENOENT), Std(NotExist));
  }

  /** A credential that is there is answered as not found: the input at which the category misleads. */
  lemma PresentButNotFound(op: Op, fs: Fs)
    requires !op.Set? && PathFor(op) in fs.entries
    ensures var err := Mounts.MountError(Errno(ENOENT));
            && !Honest(Refusal(err)) && HonestMount(Refusal(err))
            && AfterRefusal(op, fs, err).Finished? && AfterRefusal(op, fs, err).reply.Rejected?
            && IsCategory(AfterRefusal(op, fs, err).reply.error, NotFound)
            && IsCategory(AfterRefusal(op, fs, err).reply.error, InsecureFallback)
  {
    hide OperationError, Next;
    var err := Mounts.MountError(Errno(ENOENT));
    assert Is(Errno(ENOENT), Std(NotExist));
    Mounts.MountErrorKeepsMissing(Errno(ENOENT));
    Mounts.MountErrorIs(Errno(ENOENT));
    RefusalAnswered(op, fs, err);
  }
}
