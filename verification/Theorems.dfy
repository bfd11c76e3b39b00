/** Every step keeps the invariant of `Concurrency`; what callers may rely on follows. */
module Theorems {
  import opened Wrappers
  import opened Errors
  import opened Filesystem
  import opened Program
  import opened Invariants
  import opened LinuxSystem
  import opened Machine
  import opened Threads
  import opened Guarantees
  import opened Interference
  import opened OwnSteps
  import opened WriteSteps
  import opened GlobalSteps
  import opened Concurrency
  import Layout

  // The steps other than a system call.

  lemma MoreWritten(fs: Fs, written: set<(Path, Bytes)>, more: set<(Path, Bytes)>)
    requires Durable(fs, written) && written <= more
    ensures Durable(fs, more)
  {
    hide Unwritten, Candidates, Layout.IsCredentialName;
  }

  /** Adding or restarting one bare operation leaves the others' parts alone. */
  lemma BareThreads(s: State, after: State, t: nat)
    requires forall u <- s.threads :: RunningOk(s, u)
    requires forall u <- s.threads, v <- s.threads :: PairApart(s, u, v)
    requires after.fs == s.fs && after.log == s.log
    requires after.threads.Keys == s.threads.Keys + {t}
    requires forall u <- s.threads | u != t :: after.threads[u] == s.threads[u]
    requires after.threads[t].event == None && (IsRunning(after, t) ==> after.threads[t].phase.point.AtMount?)
    ensures forall u <- after.threads :: RunningOk(after, u)
    ensures forall u <- after.threads, v <- after.threads :: PairApart(after, u, v)
  {
    hide ThreadOk, Apart;
    BareOk(s.fs, after.threads[t].op, AtMount, after.threads[t].trusted);
    BareApart(after.threads[t].op, AtMount);
    forall u <- after.threads
      ensures RunningOk(after, u)
    {
      assert u != t ==> RunningOk(s, u);
    }
    forall u <- after.threads, v <- after.threads
      ensures PairApart(after, u, v)
    {
      assert u != t && v != t ==> PairApart(s, u, v);
    }
  }

  lemma InvokeHistory(s: State, t: nat, op: Op)
    requires HistoryOk(s) && t !in s.threads
    ensures HistoryOk(AfterInvoke(s, t, op))
  {
    hide LegalLog, Replay, View, Explains, PathFor;
  }

  lemma InvokeKeeps(s: State, t: nat, op: Op)
    requires Invariant(s) && t !in s.threads
    ensures Invariant(AfterInvoke(s, t, op))
  {
    hide Consistent, Durable, ReadersFrozen, SettledAt, HistoryOk, RunningOk, PairApart, PathFor, StripeOf;
    var after := AfterInvoke(s, t, op);
    MoreWritten(s.fs, s.written, after.written);
    BareThreads(s, after, t);
    InvokeHistory(s, t, op);
    assert forall u | IsMutator(after, u) :: IsMutator(s, u);
    assert forall u | IsMutator(s, u) :: IsMutator(after, u);
  }

  lemma BareApart(op: Op, point: Point)
    requires point.AtMount?
    ensures forall op2: Op, point2: Point :: Apart(op, point, op2, point2) && Apart(op2, point2, op, point)
  {
  }

  lemma AcquireHistory(s: State, t: nat)
    requires HistoryOk(s) && CanAcquire(s, t)
    ensures HistoryOk(AfterAcquire(s, t))
    ensures s.threads[t].event == None && !s.threads[t].op.Get?
  {
    hide LegalLog, Replay, View, Explains, PathFor, StripeOf;
    LoggedThread(s, t);
  }

  lemma AcquireOwned(s: State, t: nat)
    requires OpenOwned(s) && CanAcquire(s, t)
    ensures OpenOwned(AfterAcquire(s, t))
  {
    hide OpenOwned, PathFor, StripeOf;
    var after := AfterAcquire(s, t);
    forall d <- after.fs.open
      ensures exists u | u in after.threads :: OwnedBy(after, d, u)
    {
      var u := Owner(s, d);
      assert OwnedBy(after, d, u);
    }
    OwnedEach(after);
  }

  lemma AcquireLocks(s: State, t: nat)
    requires LocksOk(s) && CanAcquire(s, t) && !s.threads[t].op.Get?
    ensures LocksOk(AfterAcquire(s, t))
  {
    hide PathFor, StripeOf;
    var after := AfterAcquire(s, t);
    assert forall u | IsMutator(after, u) :: u == t || IsMutator(s, u);
    assert forall u | IsMutator(s, u) :: u != t && IsMutator(after, u);
  }

  lemma AcquireSettled(s: State, t: nat)
    requires SettledOk(s) && CanAcquire(s, t)
    ensures SettledOk(AfterAcquire(s, t))
  {
    hide PathFor, StripeOf, SettledAt;
    var after := AfterAcquire(s, t);
    assert forall u | IsMutator(after, u) :: u == t || IsMutator(s, u);
  }

  lemma AcquireKeeps(s: State, t: nat)
    requires Invariant(s) && CanAcquire(s, t)
    ensures Invariant(AfterAcquire(s, t))
  {
    hide Consistent, Durable, ReadersFrozen, SettledOk, LocksOk, HistoryOk, RunningOk, PairApart, PathFor, StripeOf,
         OpenOwned;
    AcquireHistory(s, t);
    AcquireLocks(s, t);
    AcquireSettled(s, t);
    AcquireOwned(s, t);
    BareThreads(s, AfterAcquire(s, t), t);
  }

  lemma StoredIsSettled(fs: Fs, op: Op, reply: Reply, action: Option<Action>, trusted: bool)
    requires ThreadOk(fs, op, Finished(reply), action, trusted) && reply.Stored?
    ensures !op.Get? && SettledAt(fs, PathFor(op), if op.Set? then Some(op.value) else None)
    ensures Explains(op, reply, action, trusted)
  {
    hide RightKind, HoldsDescriptors, HoldsTemporary, HoldsContent, StillValidated, ReadsPrefix;
    OtherNames(op, op);
  }

  lemma FinishedExplained(fs: Fs, op: Op, reply: Reply, action: Option<Action>, trusted: bool)
    requires ThreadOk(fs, op, Finished(reply), action, trusted)
    ensures Explains(op, reply, action, trusted)
  {
    hide RightKind, HoldsDescriptors, HoldsTemporary, HoldsContent, StillValidated, ReadsPrefix, Outcomes, Explains;
  }

  lemma RespondLocks(s: State, t: nat)
    requires Invariant(s) && CanRespond(s, t)
    ensures LocksOk(AfterRespond(s, t))
  {
    hide Consistent, Durable, ReadersFrozen, SettledOk, HistoryOk, WritesKnown, RunningOk, PairApart, PathFor, StripeOf;
    var after := AfterRespond(s, t);
    assert forall u | IsMutator(after, u) :: u != t && IsMutator(s, u);
    assert forall u | IsMutator(s, u) && u != t :: IsMutator(after, u);
  }

  lemma RespondSettled(s: State, t: nat)
    requires Invariant(s) && CanRespond(s, t)
    ensures SettledOk(AfterRespond(s, t))
  {
    hide Consistent, Durable, ReadersFrozen, SettledAt, HistoryOk, WritesKnown, ThreadOk, PairApart, PathFor, LocksOk;
    var after := AfterRespond(s, t);
    var thread := s.threads[t];
    assert RunningOk(s, t);
    assert forall u | IsMutator(after, u) :: u != t && IsMutator(s, u);
    if thread.phase.point.reply.Stored? {
      StoredIsSettled(s.fs, thread.op, thread.phase.point.reply, ActionAt(s.log, thread.event), thread.trusted);
      forall u | IsMutator(after, u)
        ensures PathFor(after.threads[u].op) != PathFor(thread.op)
      {
        if PathFor(s.threads[u].op) == PathFor(thread.op) {
          MutualExclusion(s, t, u);
        }
      }
    }
  }

  lemma RespondHistory(s: State, t: nat)
    requires Invariant(s) && CanRespond(s, t)
    ensures HistoryOk(AfterRespond(s, t))
  {
    hide Consistent, Durable, ReadersFrozen, SettledOk, LocksOk, WritesKnown, ThreadOk, PairApart, PathFor, LegalLog,
         Replay, View, Explains;
    var thread := s.threads[t];
    assert RunningOk(s, t);
    FinishedExplained(s.fs, thread.op, thread.phase.point.reply, ActionAt(s.log, thread.event), thread.trusted);
  }

  /** An operation that has finished owns nothing. */
  lemma RespondOwned(s: State, t: nat)
    requires OpenOwned(s) && CanRespond(s, t)
    ensures OpenOwned(AfterRespond(s, t))
  {
    hide OpenOwned, PathFor, StripeOf;
    var after := AfterRespond(s, t);
    forall d <- after.fs.open
      ensures exists u | u in after.threads :: OwnedBy(after, d, u)
    {
      var u := Owner(s, d);
      assert OwnedBy(after, d, u);
    }
    OwnedEach(after);
  }

  lemma RespondKeeps(s: State, t: nat)
    requires Invariant(s) && CanRespond(s, t)
    ensures Invariant(AfterRespond(s, t))
  {
    hide Consistent, Durable, ReadersFrozen, SettledOk, LocksOk, HistoryOk, ThreadOk, Apart, PathFor, StripeOf, OpenOwned;
    RespondLocks(s, t);
    RespondSettled(s, t);
    RespondHistory(s, t);
    RespondOwned(s, t);
    var after := AfterRespond(s, t);
    forall u <- after.threads, v <- after.threads
      ensures PairApart(after, u, v)
    {
      assert PairApart(s, u, v);
    }
    forall u <- after.threads
      ensures RunningOk(after, u)
    {
      assert RunningOk(s, u);
    }
  }

  lemma CrashConsistent(fs: Fs, left: Fs)
    requires Consistent(fs) && CrashOutcome(fs, left)
    ensures Consistent(left)
  {
    forall path <- left.entries
      ensures Ancestors(Service(path.service)) <= left.directories.Keys
    {
      assert Binding(left, path) in Candidates(fs, path);
    }
  }

  /** A crash leaves under a credential name a binding it could have left, with the content that was synced. */
  lemma CrashBinding(fs: Fs, left: Fs, written: set<(Path, Bytes)>, path: Path)
    requires Consistent(fs) && Durable(fs, written) && CrashOutcome(fs, left)
    requires Layout.IsCredentialName(path.name)
    ensures Candidates(left, path) == {Binding(left, path)} && Binding(left, path) in Candidates(fs, path)
    ensures Binding(left, path).Some? ==>
      var inode := Binding(left, path).value;
      && inode in left.nodes && inode in left.synced
      && Content(left, inode) == Content(fs, inode) && (path, Content(left, inode)) in written
  {
    hide Consistent, Unwritten, Layout.IsCredentialName;
    assert Binding(left, path) in Candidates(fs, path);
  }

  lemma CrashDurable(fs: Fs, left: Fs, written: set<(Path, Bytes)>)
    requires Consistent(fs) && Durable(fs, written) && CrashOutcome(fs, left)
    ensures Durable(left, written)
  {
    hide Consistent, Layout.IsCredentialName, Candidates, Binding;
    forall path: Path, binding |
      Layout.IsCredentialName(path.name) && binding in Candidates(left, path) && binding.Some?
      ensures binding.value in left.nodes && binding.value in left.synced && Unwritten(left, binding.value)
      ensures (path, Content(left, binding.value)) in written
    {
      CrashBinding(fs, left, written, path);
    }
  }

  lemma CrashSettled(fs: Fs, left: Fs, written: set<(Path, Bytes)>, path: Path, value: Option<Bytes>)
    requires Consistent(fs) && Durable(fs, written) && CrashOutcome(fs, left)
    requires SettledAt(fs, path, value)
    ensures SettledAt(left, path, value)
  {
    hide Consistent, Durable, CrashOutcome, Layout.IsCredentialName, Candidates;
    CrashBinding(fs, left, written, path);
  }

  lemma CrashKeeps(s: State, left: Fs)
    requires Invariant(s) && CrashOutcome(s.fs, left)
    ensures Invariant(AfterCrash(s, left))
  {
    hide Consistent, Durable, CrashOutcome, SettledAt, LegalLog, ThreadOk, Apart, PathFor, StripeOf, View, Unwritten;
    CrashConsistent(s.fs, left);
    CrashDurable(s.fs, left, s.written);
    NothingOpen(s.fs, left);
    NothingLogged(View(left));
    forall path <- s.settled
      ensures SettledAt(left, path, s.settled[path])
    {
      CrashSettled(s.fs, left, s.written, path, s.settled[path]);
    }
  }

  lemma NothingOpen(fs: Fs, left: Fs)
    requires CrashOutcome(fs, left)
    ensures ReadersFrozen(left) && left.open == map[]
  {
  }

  lemma NothingLogged(base: Credentials)
    ensures LegalLog(base, []) && Replay(base, []) == base
  {
  }

  lemma StepKeeps(s: State, step: Step)
    requires Invariant(s) && Enabled(s, step)
    ensures Invariant(After(s, step))
  {
    hide Invariant, AfterInvoke, AfterAcquire, AfterAdvance, AfterRespond, AfterCrash, CanAcquire, CanAdvance, CanRespond,
         CrashOutcome;
    match step
    case Invoke(t, op) => InvokeKeeps(s, t, op);
    case Acquire(t) => AcquireKeeps(s, t);
    case Advance(t, fault) => AdvanceKeeps(s, t, fault);
    case Respond(t) => RespondKeeps(s, t);
    case Crash(left) => CrashKeeps(s, left);
  }

  /** The invariant holds in every state that any interleaving, with any faults and crashes, reaches. */
  lemma {:induction false} RunKeeps(s: State, steps: seq<Step>)
    requires Invariant(s) && Possible(s, steps)
    ensures Invariant(Execute(s, steps))
    decreases |steps|
  {
    hide Invariant, After, Enabled;
    if steps != [] {
      StepKeeps(s, steps[0]);
      RunKeeps(After(s, steps[0]), steps[1..]);
    }
  }

  // What it means for callers.

  /** An operation's log entry is its own, and comes after its invocation. */
  predicate Recognised(s: State, t: nat) {
    t in s.threads && s.threads[t].event.Some? ==>
      var thread := s.threads[t];
      && thread.invokedAt <= thread.event.value < |s.log|
      && s.log[thread.event.value].thread == t
      && OwnEntry(thread.op, s.log[thread.event.value].action)
  }

  /** An operation that has answered was logged before its response, if its answer needs it. */
  predicate Answered(s: State, t: nat) {
    t in s.threads && s.threads[t].phase.Responded? ==>
      var thread := s.threads[t];
      && Explains(thread.op, thread.phase.reply, ActionAt(s.log, thread.event), thread.trusted)
      && (thread.event.Some? ==> thread.event.value < thread.phase.at <= |s.log|)
  }

  /**
   Linearizability, whatever faults hit the operations: in every reachable state the log is a legal
   history of the map that ends in what is on disk, each operation occurs in it at most once, with an
   entry of its own kind on its own name, and every answer is the one its entry gives. Only for an
   answer of `NotFound` does it matter whether the faults that hit the operation were honest.
   */
  lemma Linearizable(start: State, steps: seq<Step>)
    requires Initial(start) && Possible(start, steps)
    ensures var s := Execute(start, steps);
            && LegalLog(s.base, s.log)
            && Replay(s.base, s.log) == View(s.fs)
            && (forall i, j | 0 <= i < j < |s.log| :: s.log[i].thread != s.log[j].thread)
            && (forall t <- s.threads :: Recognised(s, t) && Answered(s, t))
  {
    hide Initial, Possible, Execute, Consistent, Durable, ReadersFrozen, RunningOk, PairApart, LocksOk, SettledOk,
         WritesKnown, LegalLog, Replay, View, Explains, OwnEntry, OpenOwned;
    InitialInvariant(start);
    RunKeeps(start, steps);
  }

  /**
   What `NotFound` means for a Get or Delete that only honest faults hit. Without `InsecureFallback` the
   name was absent at a moment between call and answer; with it the mount check refused, nothing was
   looked at, and the credential may well be there.
   */
  lemma NotFoundMeansAbsent(start: State, steps: seq<Step>, t: nat)
    requires Initial(start) && Possible(start, steps)
    requires var s := Execute(start, steps);
             && t in s.threads && s.threads[t].trusted && !s.threads[t].op.Set?
             && s.threads[t].phase.Responded? && s.threads[t].phase.reply.Rejected?
             && IsCategory(s.threads[t].phase.reply.error, NotFound)
    ensures var s := Execute(start, steps);
            var thread := s.threads[t];
            if IsCategory(thread.phase.reply.error, InsecureFallback) then
              thread.event == None
            else
              && thread.event.Some? && thread.invokedAt <= thread.event.value < thread.phase.at <= |s.log|
              && PathFor(thread.op) !in Replay(s.base, s.log[..thread.event.value])
  {
    hide Initial, Possible, Execute, Invariant, IsCategory, PathFor, Replay, View;
    Linearizable(start, steps);
    var s := Execute(start, steps);
    var thread := s.threads[t];
    assert Recognised(s, t) && Answered(s, t);
    if thread.event.Some? {
      var i := thread.event.value;
      assert Legal(Replay(s.base, s.log[..i]), s.log[i].action);
    }
  }

  /** Every fault along the steps is one that an honest system may report where it strikes. */
  ghost predicate HonestSteps(s: State, steps: seq<Step>)
    requires Possible(s, steps)
    decreases |steps|
  {
    steps != [] ==>
      && (steps[0].Advance? ==> HonestAt(s.threads[steps[0].thread].phase.point, steps[0].fault))
      && HonestSteps(After(s, steps[0]), steps[1..])
  }

  lemma StepTrusts(s: State, step: Step)
    requires Enabled(s, step) && forall t <- s.threads :: s.threads[t].trusted
    requires step.Advance? ==> HonestAt(s.threads[step.thread].phase.point, step.fault)
    ensures forall t <- After(s, step).threads :: After(s, step).threads[t].trusted
  {
    hide Exec, Next, Linearize, CallOf, Callable, Fits, HonestAt, StripeOf, PathFor, CrashOutcome;
    match step
    case Advance(t, fault) => AdvanceShape(s, t, fault);
    case _ =>
  }

  /** In an honest system every operation is trusted, so that every answer of `NotFound` has its meaning. */
  lemma {:induction false} HonestRunTrusts(s: State, steps: seq<Step>)
    requires Possible(s, steps) && HonestSteps(s, steps)
    requires forall t <- s.threads :: s.threads[t].trusted
    ensures forall t <- Execute(s, steps).threads :: Execute(s, steps).threads[t].trusted
    decreases |steps|
  {
    hide After, Enabled, HonestAt;
    if steps != [] {
      StepTrusts(s, steps[0]);
      HonestRunTrusts(After(s, steps[0]), steps[1..]);
    }
  }

  /** Every open descriptor belongs to exactly one running operation: when none runs, none is open. */
  lemma DescriptorsOwned(start: State, steps: seq<Step>)
    requires Initial(start) && Possible(start, steps)
    ensures var s := Execute(start, steps);
            && (forall d <- s.fs.open :: exists t | t in s.threads :: OwnedBy(s, d, t))
            && (forall d: int, t <- s.threads, u <- s.threads | OwnedBy(s, d, t) && OwnedBy(s, d, u) :: t == u)
            && ((forall t <- s.threads :: !IsRunning(s, t)) ==> s.fs.open == map[])
  {
    hide Initial, Possible, Execute, Consistent, Durable, ReadersFrozen, RunningOk, LocksOk, SettledOk, WritesKnown,
         HistoryOk, Owns, Temporary;
    InitialInvariant(start);
    RunKeeps(start, steps);
    var s := Execute(start, steps);
    forall d: int, t <- s.threads, u <- s.threads | OwnedBy(s, d, t) && OwnedBy(s, d, u)
      ensures t == u
    {
      assert PairApart(s, t, u);
    }
    if forall t <- s.threads :: !IsRunning(s, t) {
      forall d
        ensures d !in s.fs.open
      {
      }
    }
  }

  ghost predicate NoCrash(steps: seq<Step>) {
    forall step <- steps :: !step.Crash?
  }

  /** From `m` to `s` the log has only grown, answers have stayed, and newcomers came later. */
  ghost predicate Onward(m: State, s: State) {
    && |m.log| <= |s.log| && s.log[..|m.log|] == m.log
    && (forall t <- m.threads :: t in s.threads && s.threads[t].invokedAt == m.threads[t].invokedAt)
    && (forall t <- m.threads | m.threads[t].phase.Responded? :: s.threads[t] == m.threads[t])
    && (forall t <- s.threads | t !in m.threads :: s.threads[t].invokedAt >= |m.log|)
  }

  lemma StepOnward(m: State, s: State, step: Step)
    requires Onward(m, s) && Enabled(s, step) && !step.Crash?
    ensures Onward(m, After(s, step))
  {
    hide Exec, Next, Linearize, CallOf, Callable, Fits, HonestAt, StripeOf, PathFor;
    match step
    case Advance(t, fault) =>
      AdvanceShape(s, t, fault);
    case _ =>
  }

  lemma {:induction false} RunOnward(m: State, s: State, steps: seq<Step>)
    requires Onward(m, s) && Possible(s, steps) && NoCrash(steps)
    ensures Onward(m, Execute(s, steps))
    decreases |steps|
  {
    hide Onward, After, Enabled;
    if steps != [] {
      StepOnward(m, s, steps[0]);
      RunOnward(m, After(s, steps[0]), steps[1..]);
    }
  }

  /** The log respects real time: an operation that answered before another began comes first. */
  lemma RealTimeOrder(start: State, earlier: seq<Step>, later: seq<Step>, a: nat, b: nat)
    requires Initial(start) && Possible(start, earlier)
    requires Possible(Execute(start, earlier), later) && NoCrash(later)
    requires var m := Execute(start, earlier);
             a in m.threads && m.threads[a].phase.Responded? && m.threads[a].event.Some? && b !in m.threads
    requires var s := Execute(Execute(start, earlier), later);
             b in s.threads && s.threads[b].event.Some?
    ensures var s := Execute(Execute(start, earlier), later);
            a in s.threads && s.threads[a].event.Some? && s.threads[a].event.value < s.threads[b].event.value
  {
    hide Initial, Possible, Execute, Consistent, Durable, ReadersFrozen, RunningOk, PairApart, LocksOk, SettledOk,
         WritesKnown, LegalLog, Replay, View, Explains;
    InitialInvariant(start);
    RunKeeps(start, earlier);
    var m := Execute(start, earlier);
    RunKeeps(m, later);
    RunOnward(m, m, later);
    LoggedThread(m, a);
    LoggedThread(Execute(m, later), b);
  }

  /** Whatever a crash leaves under a credential name is the whole value of some Set on it, or was there at the start. */
  lemma CrashLeavesWholeValues(start: State, steps: seq<Step>, left: Fs)
    requires Initial(start) && Possible(start, steps) && CrashOutcome(Execute(start, steps).fs, left)
    ensures forall path <- View(left) :: (path, View(left)[path]) in Execute(start, steps).written
  {
    hide Initial, Possible, Execute, Consistent, Durable, ReadersFrozen, RunningOk, PairApart, LocksOk, SettledOk,
         WritesKnown, HistoryOk, CrashOutcome;
    InitialInvariant(start);
    RunKeeps(start, steps);
    var s := Execute(start, steps);
    forall path <- View(left)
      ensures (path, View(left)[path]) in s.written
    {
      CrashBinding(s.fs, left, s.written, path);
    }
  }

  /** No mutation of `path` takes its lock while the steps are made. */
  ghost predicate Unmutated(s: State, steps: seq<Step>, path: Path)
    requires Possible(s, steps)
    decreases |steps|
  {
    steps != [] ==>
      && (steps[0].Acquire? ==> PathFor(s.threads[steps[0].thread].op) != path)
      && Unmutated(After(s, steps[0]), steps[1..], path)
  }

  lemma StepKeepsSettled(s: State, step: Step, path: Path)
    requires Invariant(s) && Enabled(s, step) && path in s.settled
    requires step.Acquire? ==> PathFor(s.threads[step.thread].op) != path
    ensures path in After(s, step).settled && After(s, step).settled[path] == s.settled[path]
  {
    hide Consistent, Durable, ReadersFrozen, RunningOk, PairApart, LocksOk, HistoryOk, WritesKnown, SettledAt, PathFor,
         Exec, Next, Linearize, CallOf, Callable, Fits, HonestAt, StripeOf, CrashOutcome, View;
    match step
    case Advance(t, fault) => AdvanceShape(s, t, fault);
    case Respond(t) => assert s.threads[t].op.Get? || IsMutator(s, t);
    case _ =>
  }

  lemma {:induction false} RunKeepsSettled(s: State, steps: seq<Step>, path: Path)
    requires Invariant(s) && Possible(s, steps) && Unmutated(s, steps, path) && path in s.settled
    ensures path in Execute(s, steps).settled && Execute(s, steps).settled[path] == s.settled[path]
    decreases |steps|
  {
    hide Invariant, After, Enabled, PathFor;
    if steps != [] {
      StepKeepsSettled(s, steps[0], path);
      StepKeeps(s, steps[0]);
      RunKeepsSettled(After(s, steps[0]), steps[1..], path);
    }
  }

  /**
   A mutation that answered success survives: whatever the others do and however often the machine
   crashes, as long as no later mutation of the name begins, its effect is on disk after a crash.
   */
  lemma AcknowledgedSurvives(start: State, earlier: seq<Step>, t: nat, later: seq<Step>, left: Fs)
    requires Initial(start) && Possible(start, earlier)
    requires var m := Execute(start, earlier);
             CanRespond(m, t) && m.threads[t].phase.point.reply.Stored? && Possible(AfterRespond(m, t), later)
    requires var m := Execute(start, earlier);
             Unmutated(AfterRespond(m, t), later, PathFor(m.threads[t].op))
    requires CrashOutcome(Execute(AfterRespond(Execute(start, earlier), t), later).fs, left)
    ensures var op := Execute(start, earlier).threads[t].op;
            !op.Get? && Lookup(View(left), PathFor(op)) == if op.Set? then Some(op.value) else None
  {
    hide Initial, Possible, Execute, Consistent, Durable, ReadersFrozen, PairApart, LocksOk, HistoryOk, WritesKnown,
         ThreadOk, PathFor, CrashOutcome, View, Unmutated, SettledAt, AfterRespond;
    InitialInvariant(start);
    RunKeeps(start, earlier);
    var m := Execute(start, earlier);
    var thread := m.threads[t];
    assert RunningOk(m, t);
    StoredIsSettled(m.fs, thread.op, thread.phase.point.reply, ActionAt(m.log, thread.event), thread.trusted);
    RespondKeeps(m, t);
    RespondSettles(m, t);
    var n := AfterRespond(m, t);
    RunKeepsSettled(n, later, PathFor(thread.op));
    RunKeeps(n, later);
    var s := Execute(n, later);
    CrashSettled(s.fs, left, s.written, PathFor(thread.op), s.settled[PathFor(thread.op)]);
    SettledLookup(left, PathFor(thread.op), s.settled[PathFor(thread.op)]);
  }

  lemma SettledLookup(fs: Fs, path: Path, value: Option<Bytes>)
    requires SettledAt(fs, path, value)
    ensures Lookup(View(fs), path) == value
  {
  }

  lemma RespondSettles(s: State, t: nat)
    requires CanRespond(s, t) && !s.threads[t].op.Get? && s.threads[t].phase.point.reply.Stored?
    ensures var op := s.threads[t].op;
            var settled := AfterRespond(s, t).settled;
            PathFor(op) in settled && settled[PathFor(op)] == if op.Set? then Some(op.value) else None
  {
    hide PathFor, StripeOf;
  }

  /** What a mutation replaces or removes is exactly the inode it validated, or the absence it found. */
  lemma ReplacesWhatItValidated(start: State, steps: seq<Step>, t: nat)
    requires Initial(start) && Possible(start, steps) && IsRunning(Execute(start, steps), t)
    ensures var s := Execute(start, steps);
            var op, point := s.threads[t].op, s.threads[t].phase.point;
            && (point.AtRename? && (point.seen.Some? || s.threads[t].trusted) ==> Binding(s.fs, PathFor(op)) == point.seen)
            && (point.AtUnlink? ==> Binding(s.fs, PathFor(op)) == Some(point.target))
  {
    hide Initial, Possible, Execute, Consistent, Durable, ReadersFrozen, PairApart, LocksOk, HistoryOk, WritesKnown,
         SettledOk, PathFor, HoldsDescriptors, HoldsTemporary, HoldsContent, RightKind, ReadsPrefix, Outcomes, LogsRight,
         Binding;
    InitialInvariant(start);
    RunKeeps(start, steps);
    assert RunningOk(Execute(start, steps), t);
  }

  /** At any time at most one mutation of a name is between taking and releasing its lock. */
  lemma OneMutationPerName(start: State, steps: seq<Step>, t: nat, u: nat)
    requires Initial(start) && Possible(start, steps)
    requires IsMutator(Execute(start, steps), t) && IsMutator(Execute(start, steps), u)
    requires PathFor(Execute(start, steps).threads[t].op) == PathFor(Execute(start, steps).threads[u].op)
    ensures t == u
  {
    hide Initial, Possible, Execute, Consistent, Durable, ReadersFrozen, PairApart, LocksOk, HistoryOk, WritesKnown,
         SettledOk, PathFor, RunningOk;
    InitialInvariant(start);
    RunKeeps(start, steps);
    MutualExclusion(Execute(start, steps), t, u);
  }

  /** A running operation can always make its next call or answer. */
  lemma RunningCanMove(s: State, t: nat)
    requires Invariant(s) && IsRunning(s, t)
    ensures CanAdvance(s, t) || CanRespond(s, t)
  {
    hide Consistent, Durable, ReadersFrozen, PairApart, LocksOk, HistoryOk, WritesKnown, SettledOk, ThreadOk, Callable,
         CallOf, RightKind, HoldsDescriptors, HoldsTemporary, HoldsContent;
    assert RunningOk(s, t);
    var thread := s.threads[t];
    ParametersOf(s.fs, thread.op, thread.phase.point, ActionAt(s.log, thread.event), thread.trusted);
    if !thread.phase.point.Finished? {
      CallIsPossible(s.fs, thread.op, thread.phase.point);
    }
  }

  /** No deadlock: while some operation has not answered, some operation can move without a new one arriving. */
  lemma NoDeadlock(start: State, steps: seq<Step>, t: nat)
    requires Initial(start) && Possible(start, steps)
    requires t in Execute(start, steps).threads && !Execute(start, steps).threads[t].phase.Responded?
    ensures var s := Execute(start, steps);
            exists u :: CanAdvance(s, u) || CanRespond(s, u) || CanAcquire(s, u)
  {
    hide Initial, Possible, Execute, Consistent, Durable, ReadersFrozen, PairApart, HistoryOk, WritesKnown,
         SettledOk, RunningOk, StripeOf, CanAdvance, CanRespond;
    InitialInvariant(start);
    RunKeeps(start, steps);
    var s := Execute(start, steps);
    if s.threads[t].phase.Running? {
      RunningCanMove(s, t);
    } else if StripeOf(s.threads[t].op) in s.locks {
      RunningCanMove(s, s.locks[StripeOf(s.threads[t].op)]);
    } else {
      assert CanAcquire(s, t);
    }
  }
}
