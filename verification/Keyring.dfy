/** internal/backend/fs/keyring.go: argument checks and striped locks around the storage. */
module FilesystemKeyring {
  import opened Wrappers
  import opened Errors
  import opened Contexts
  import opened Filesystem
  import opened Program
  import opened Invariants
  import opened Answers
  import opened LinuxSystem
  import opened Storage
  import opened Layout

  /** `validateOperation`. */
  function OperationProblem(ctx: Context, key: string): Option<Error> {
    if ContextError(ctx).Some? then
      ContextError(ctx)
    else if key == "" then
      Some(Errors.Fault(InvalidArgument))
    else
      None
  }

  predicate Admitted(ctx: Context, key: string) {
    ctx == Live && key != ""
  }

  /** What a call that is not admitted answers: the context comes before the empty key. */
  ghost predicate Refused(ctx: Context, reply: Reply) {
    reply.Rejected? && if ctx == Live then Exactly(reply.error, InvalidArgument) else EndedBy(ctx, reply.error)
  }

  lemma ProblemIsRefused(ctx: Context, key: string)
    ensures OperationProblem(ctx, key).None? <==> Admitted(ctx, key)
    ensures OperationProblem(ctx, key).Some? ==> Refused(ctx, Rejected(OperationProblem(ctx, key).value))
  {
    hide Exactly, EndedBy, ContextError;
    ContextErrorIsClassified(ctx);
    FaultIsExactly(InvalidArgument);
  }

  class Keyring {
    const hash: Hash
    const storage: LinuxStorage
    const locks: array<bool>

    constructor (hash: Hash, system: System, service: string)
      ensures this.hash == hash && storage.system == system
      ensures storage.service == Identifier(hash, SERVICE_DOMAIN, service)
      ensures fresh(storage) && fresh(locks) && Idle()
    {
      this.hash := hash;
      storage := new LinuxStorage(system, Identifier(hash, SERVICE_DOMAIN, service));
      locks := new bool[STRIPES](_ => false);
    }

    /** No operation holds a lock. */
    predicate Idle()
      reads locks
    {
      locks.Length == STRIPES && forall i | 0 <= i < STRIPES :: !locks[i]
    }

    function PathOf(key: string): Path {
      Path(storage.service, Identifier(hash, KEY_DOMAIN, key))
    }

    method Get(ctx: Context, key: string) returns (reply: Reply)
      requires Consistent(storage.system.fs)
      modifies storage.system
      ensures Consistent(storage.system.fs)
      ensures !reply.Stored?
      ensures OnlyDescriptors(old(storage.system.fs), storage.system.fs)
      ensures storage.system.fs.open == old(storage.system.fs).open
      ensures ScriptKept(old(storage.system.script), storage.system.script)
      ensures !Admitted(ctx, key) ==> Refused(ctx, reply) && storage.system.fs == old(storage.system.fs)
      ensures reply.Value? ==>
        SecureAt(old(storage.system.fs), PathOf(key)) && reply.contents == ContentAt(old(storage.system.fs), PathOf(key))
      ensures Admitted(ctx, key) && HonestRun(old(storage.system.script)) ==>
        NotFoundExplained(old(storage.system.fs), PathOf(key), old(storage.system.script), reply)
      ensures Admitted(ctx, key) && Upcoming(old(storage.system.script)).error.Some? ==>
        reply == Rejected(OperationError(true, Upcoming(old(storage.system.script)).error.value))
      ensures Admitted(ctx, key) && AllHarmless(old(storage.system.script)) && DirectoriesReady(old(storage.system.fs), storage.service) ==>
        && (PathOf(key) !in old(storage.system.fs).entries ==> reply.Rejected? && IsCategory(reply.error, NotFound))
        && (SecureAt(old(storage.system.fs), PathOf(key)) ==> reply.Value?)
        && (InsecureAt(old(storage.system.fs), PathOf(key)) ==> reply.Rejected? && Exactly(reply.error, InsecureFallback))
      ensures Admitted(ctx, key) ==>
        Settled(Op.Get(storage.service, hash(KEY_DOMAIN + key)), storage.system.history, reply)
    {
      hide Consistent, Accounted, Settled, Exactly, Refused, OperationProblem, InsecureAt, AllHarmless, AllHonest, HonestRun, NotFoundExplained, OperationError, SecureMeta, Is;
      ProblemIsRefused(ctx, key);
      var problem := OperationProblem(ctx, key);
      if problem.Some? {
        return Rejected(problem.value);
      }
      var digest := hash(KEY_DOMAIN + key);
      storage.system.Begin(Op.Get(storage.service, digest));
      reply := storage.Get(Hex(digest));
    }

    method Set(ctx: Context, key: string, value: Bytes) returns (reply: Reply)
      requires Consistent(storage.system.fs) && Idle()
      modifies storage.system, locks
      ensures Consistent(storage.system.fs) && Idle()
      ensures !reply.Value?
      ensures ScriptKept(old(storage.system.script), storage.system.script)
      ensures !Admitted(ctx, key) ==> Refused(ctx, reply) && storage.system.fs == old(storage.system.fs)
      ensures Admitted(ctx, key) ==>
        && SetEffect(old(storage.system.fs), storage.system.fs, PathOf(key), value, storage.system.failures, reply.Stored?)
        && (AllHarmless(old(storage.system.script)) && CanSet(old(storage.system.fs), PathOf(key)) ==> reply.Stored?)
        && (AllHarmless(old(storage.system.script)) && DirectoriesAcceptable(old(storage.system.fs), storage.service) && InsecureAt(old(storage.system.fs), PathOf(key)) ==>
              reply.Rejected? && Exactly(reply.error, InsecureFallback))
        && Settled(Op.Set(storage.service, hash(KEY_DOMAIN + key), value), storage.system.history, reply)
    {
      hide Consistent, Accounted, Settled, Exactly, Refused, OperationProblem, InsecureAt, AllHarmless, AllHonest, SetEffect, CanSet;
      ProblemIsRefused(ctx, key);
      var problem := OperationProblem(ctx, key);
      if problem.Some? {
        return Rejected(problem.value);
      }
      var digest := hash(KEY_DOMAIN + key);
      var stripe := Stripe(digest);
      locks[stripe] := true;
      storage.system.Begin(Op.Set(storage.service, digest, value));
      reply := storage.Set(Hex(digest), value);
      locks[stripe] := false;
    }

    method Delete(ctx: Context, key: string) returns (reply: Reply)
      requires Consistent(storage.system.fs) && Idle()
      modifies storage.system, locks
      ensures Consistent(storage.system.fs) && Idle()
      ensures !reply.Value?
      ensures ScriptKept(old(storage.system.script), storage.system.script)
      ensures !Admitted(ctx, key) ==> Refused(ctx, reply) && storage.system.fs == old(storage.system.fs)
      ensures Admitted(ctx, key) ==>
        && DeleteEffect(old(storage.system.fs), storage.system.fs, PathOf(key), storage.system.failures, reply.Stored?)
        && (HonestRun(old(storage.system.script)) ==>
              NotFoundExplained(old(storage.system.fs), PathOf(key), old(storage.system.script), reply))
        && (Upcoming(old(storage.system.script)).error.Some? ==>
              reply == Rejected(OperationError(true, Upcoming(old(storage.system.script)).error.value)))
        && (AllHarmless(old(storage.system.script)) && DirectoriesReady(old(storage.system.fs), storage.service) ==>
              && (PathOf(key) !in old(storage.system.fs).entries ==> reply.Rejected? && IsCategory(reply.error, NotFound))
              && (SecureAt(old(storage.system.fs), PathOf(key)) ==> reply.Stored?)
              && (InsecureAt(old(storage.system.fs), PathOf(key)) ==> reply.Rejected? && Exactly(reply.error, InsecureFallback)))
        && Settled(Op.Delete(storage.service, hash(KEY_DOMAIN + key)), storage.system.history, reply)
    {
      hide Consistent, Accounted, Settled, Exactly, Refused, OperationProblem, InsecureAt, AllHarmless, AllHonest, HonestRun, NotFoundExplained, OperationError, DeleteEffect, SecureMeta, Is;
      ProblemIsRefused(ctx, key);
      var problem := OperationProblem(ctx, key);
      if problem.Some? {
        return Rejected(problem.value);
      }
      var digest := hash(KEY_DOMAIN + key);
      var stripe := Stripe(digest);
      locks[stripe] := true;
      storage.system.Begin(Op.Delete(storage.service, digest));
      reply := storage.Delete(Hex(digest));
      locks[stripe] := false;
    }
  }
}
