/**
 The filesystem keyring under concurrency and crashes: an invariant of every reachable state of
 `Machine`, and what it means for callers.
 */
module Concurrency {
  import opened Wrappers
  import opened Errors
  import opened Filesystem
  import opened Program
  import opened Invariants
  import opened LinuxSystem
  import opened Machine
  import opened Threads
  import opened Guarantees
  import opened Interference
  import opened OwnSteps
  import opened WriteSteps
  import opened GlobalSteps
  import Layout

  function ActionAt(log: seq<Event>, event: Option<nat>): Option<Action> {
    if event.Some? && event.value < |log| then Some(log[event.value].action) else None
  }

  ghost predicate RunningOk(s: State, t: nat) {
    IsRunning(s, t) ==>
      ThreadOk(s.fs, s.threads[t].op, s.threads[t].phase.point, ActionAt(s.log, s.threads[t].event),
               s.threads[t].trusted)
  }

  predicate Apart(op: Op, point: Point, op2: Op, point2: Point) {
    && Owns(op, point) !! Owns(op2, point2)
    && (Temporary(op, point).Some? ==> Temporary(op, point) != Temporary(op2, point2))
  }

  predicate PairApart(s: State, t: nat, u: nat) {
    IsRunning(s, t) && IsRunning(s, u) && t != u ==>
      Apart(s.threads[t].op, s.threads[t].phase.point, s.threads[u].op, s.threads[u].phase.point)
  }

  /** A running mutation holds its stripe, and every stripe held is held by one. */
  ghost predicate LocksOk(s: State) {
    && (forall t | IsMutator(s, t) :: StripeOf(s.threads[t].op) in s.locks && s.locks[StripeOf(s.threads[t].op)] == t)
    && (forall stripe <- s.locks :: IsMutator(s, s.locks[stripe]) && StripeOf(s.threads[s.locks[stripe]].op) == stripe)
  }

  /** An operation's log entry lies between its invocation and its response, and explains its reply. */
  predicate Logged(log: seq<Event>, t: nat, thread: Thread) {
    && thread.invokedAt <= |log|
    && (thread.event.Some? ==>
          && thread.invokedAt <= thread.event.value < |log|
          && log[thread.event.value].thread == t
          && OwnEntry(thread.op, log[thread.event.value].action))
    && match thread.phase
       case Waiting => thread.event == None && !thread.op.Get?
       case Running(_) => true
       case Responded(reply, at) =>
         && thread.invokedAt <= at <= |log|
         && (thread.event.Some? ==> thread.event.value < at)
         && Explains(thread.op, reply, ActionAt(log, thread.event), thread.trusted)
  }

  ghost predicate HistoryOk(s: State) {
    && LegalLog(s.base, s.log)
    && Replay(s.base, s.log) == View(s.fs)
    && (forall t <- s.threads :: Logged(s.log, t, s.threads[t]))
    && (forall i | 0 <= i < |s.log| ::
          s.log[i].thread in s.threads && s.threads[s.log[i].thread].event == Some(i))
  }

  ghost predicate SettledAt(fs: Fs, path: Path, value: Option<Bytes>) {
    && Layout.IsCredentialName(path.name)
    && Candidates(fs, path) == {Binding(fs, path)}
    && Lookup(View(fs), path) == value
  }

  ghost predicate SettledOk(s: State) {
    && (forall path <- s.settled :: SettledAt(s.fs, path, s.settled[path]))
    && (forall t | IsMutator(s, t) :: PathFor(s.threads[t].op) !in s.settled)
  }

  ghost predicate WritesKnown(s: State) {
    forall t <- s.threads | s.threads[t].op.Set? :: (PathFor(s.threads[t].op), s.threads[t].op.value) in s.written
  }

  predicate OwnedBy(s: State, d: int, t: nat) {
    IsRunning(s, t) && d in Owns(s.threads[t].op, s.threads[t].phase.point)
  }

  /** Every open descriptor belongs to a running operation. */
  ghost predicate OpenOwned(s: State) {
    forall d <- s.fs.open :: exists t | t in s.threads :: OwnedBy(s, d, t)
  }

  ghost predicate Invariant(s: State) {
    && Consistent(s.fs)
    && Durable(s.fs, s.written)
    && ReadersFrozen(s.fs)
    && (forall t <- s.threads :: RunningOk(s, t))
    && (forall t <- s.threads, u <- s.threads :: PairApart(s, t, u))
    && LocksOk(s)
    && HistoryOk(s)
    && SettledOk(s)
    && WritesKnown(s)
    && OpenOwned(s)
  }

  lemma InitialInvariant(s: State)
    requires Initial(s)
    ensures Invariant(s)
  {
    hide Layout.IsCredentialName;
    assert forall path: Path :: Candidates(s.fs, path) == {Binding(s.fs, path)};
  }

  /** Two running mutations never work on the same name: their stripes would be the same. */
  lemma MutualExclusion(s: State, t: nat, u: nat)
    requires LocksOk(s)
    requires IsMutator(s, t) && IsMutator(s, u)
    requires PathFor(s.threads[t].op) == PathFor(s.threads[u].op)
    ensures t == u
  {
    Layout.HexInjective(s.threads[t].op.digest, s.threads[u].op.digest);
  }

  lemma PairSeparate(s: State, t: nat, u: nat)
    requires LocksOk(s) && PairApart(s, t, u) && IsRunning(s, t) && IsRunning(s, u) && t != u
    ensures Separate(s.threads[t].op, s.threads[t].phase.point, s.threads[u].op, s.threads[u].phase.point)
  {
    hide LocksOk, Owns, Temporary, PathFor;
    if !s.threads[t].op.Get? && !s.threads[u].op.Get? && PathFor(s.threads[t].op) == PathFor(s.threads[u].op) {
      MutualExclusion(s, t, u);
    }
  }

  lemma LegalAppend(base: Credentials, log: seq<Event>, event: Event)
    requires LegalLog(base, log) && Legal(Replay(base, log), event.action)
    ensures LegalLog(base, log + [event])
    ensures Replay(base, log + [event]) == Apply(Replay(base, log), event.action)
  {
    var longer := log + [event];
    assert longer[..|longer| - 1] == log;
    forall i | 0 <= i < |longer|
      ensures Legal(Replay(base, longer[..i]), longer[i].action)
    {
      if i < |log| {
        assert longer[..i] == log[..i];
      }
    }
  }

  lemma NextDirectories(op: Op, uid: nat, point: Point, outcome: Outcome)
    requires !point.Finished? && Fits(CallOf(op, point), outcome)
    ensures forall d <- Directories(op, Next(op, uid, point, outcome)) ::
      d in Directories(op, point) || outcome == Opened(d)
  {
    hide Is, OperationError, CredentialProblem, PathFor, Layout.TemporaryName, AfterReading, AfterCleanup, JoinOptional;
  }

  lemma NextFile(op: Op, uid: nat, point: Point, outcome: Outcome)
    requires !point.Finished? && Fits(CallOf(op, point), outcome)
    ensures var next := Next(op, uid, point, outcome);
            File(next).Some? ==> File(next) == File(point) || outcome == Opened(File(next).value)
  {
    hide Is, OperationError, CredentialProblem, PathFor, Layout.TemporaryName, AfterReading, AfterCleanup, JoinOptional;
  }

  /** A call only adds a descriptor it was just given to those its operation owns. */
  lemma NextOwns(op: Op, uid: nat, point: Point, outcome: Outcome)
    requires !point.Finished? && Fits(CallOf(op, point), outcome)
    ensures forall d <- Owns(op, Next(op, uid, point, outcome)) ::
      d in Owns(op, point) || outcome == Opened(d)
  {
    hide Next, Directories, File, Fits, CallOf;
    NextDirectories(op, uid, point, outcome);
    NextFile(op, uid, point, outcome);
  }

  lemma NextTemporary(op: Op, uid: nat, point: Point, outcome: Outcome)
    requires !point.Finished? && Fits(CallOf(op, point), outcome)
    ensures var next := Next(op, uid, point, outcome);
            Temporary(op, next).Some? ==>
              || Temporary(op, next) == Temporary(op, point)
              || (point.AtCreate? && outcome.Opened? && Temporary(op, next) == Some(Path(op.service, point.temporary)))
  {
    hide Is, OperationError, SecureMeta, PathFor;
  }

  lemma OpenedIsNew(fs: Fs, call: Call, fault: Disturbance)
    requires Callable(fs, call) && Exec(fs, call, fault).1.Opened?
    ensures Exec(fs, call, fault).1.descriptor == fs.nextDescriptor
  {
  }

  lemma CreatedIsNew(fs: Fs, op: Op, point: Point, fault: Disturbance)
    requires point.AtCreate? && HoldsDescriptors(fs, op, point)
    requires Callable(fs, CallOf(op, point)) && Exec(fs, CallOf(op, point), fault).1.Opened?
    ensures Path(op.service, point.temporary) !in fs.entries
  {
    hide HoldsDescriptors;
    HoldsDirectory(fs, op, point, point);
  }

  lemma OwnedAreOpen(fs: Fs, op: Op, point: Point)
    requires HoldsDescriptors(fs, op, point)
    ensures forall d <- Owns(op, point) :: d in fs.open
  {
  }

  lemma TemporaryIsBound(fs: Fs, op: Op, point: Point)
    requires HoldsTemporary(fs, op, point) && Temporary(op, point).Some?
    ensures Temporary(op, point).value in fs.entries
  {
  }

  /** After its call, an operation still has nothing in common with another one. */
  lemma StaysApart(fs: Fs, op: Op, point: Point, fault: Disturbance, op2: Op, point2: Point)
    requires Consistent(fs) && !point.Finished? && Callable(fs, CallOf(op, point))
    requires HoldsDescriptors(fs, op, point) && HoldsTemporary(fs, op, point)
    requires HoldsDescriptors(fs, op2, point2) && HoldsTemporary(fs, op2, point2)
    requires Apart(op, point, op2, point2)
    ensures var outcome := Exec(fs, CallOf(op, point), fault).1;
            Fits(CallOf(op, point), outcome) && Apart(op, Next(op, fs.uid, point, outcome), op2, point2)
  {
    hide Consistent, HoldsDescriptors, HoldsTemporary, Next, Exec, CallOf, Callable, Owns, Temporary, Fits;
    var outcome := Exec(fs, CallOf(op, point), fault).1;
    ExecFits(fs, CallOf(op, point), fault);
    NextOwns(op, fs.uid, point, outcome);
    NextTemporary(op, fs.uid, point, outcome);
    OwnedAreOpen(fs, op2, point2);
    FreshDescriptor(fs);
    if outcome.Opened? {
      OpenedIsNew(fs, CallOf(op, point), fault);
      if point.AtCreate? {
        CreatedIsNew(fs, op, point, fault);
      }
    }
    if Temporary(op2, point2).Some? {
      TemporaryIsBound(fs, op2, point2);
    }
    var next := Next(op, fs.uid, point, outcome);
    forall d <- Owns(op, next)
      ensures d !in Owns(op2, point2)
    {
      assert d in Owns(op, point) || d == fs.nextDescriptor;
    }
  }

  /** What `Advance` does, read off the state. */
  lemma AdvanceShape(s: State, t: nat, fault: Disturbance)
    requires CanAdvance(s, t)
    ensures var thread := s.threads[t];
            var (fs, outcome) := Exec(s.fs, CallOf(thread.op, thread.phase.point), fault);
            var entry := Linearize(s.fs, thread.op, thread.phase.point, outcome);
            var after := AfterAdvance(s, t, fault);
            && Fits(CallOf(thread.op, thread.phase.point), outcome)
            && after.fs == fs
            && after.threads.Keys == s.threads.Keys
            && (forall u <- s.threads | u != t :: after.threads[u] == s.threads[u])
            && after.threads[t] ==
               Thread(thread.op, Running(Next(thread.op, s.fs.uid, thread.phase.point, outcome)), thread.invokedAt,
                      if entry.Some? then Some(|s.log|) else thread.event,
                      thread.trusted && HonestAt(thread.phase.point, fault))
            && after.log == (if entry.Some? then s.log + [Event(t, entry.value)] else s.log)
            && after.locks == s.locks && after.base == s.base && after.written == s.written && after.settled == s.settled
  {
    hide Exec, Next, Linearize, Fits, CallOf, Callable, HonestAt;
    var thread := s.threads[t];
    ExecFits(s.fs, CallOf(thread.op, thread.phase.point), fault);
  }

  /** An operation that is about to be logged has not been. */
  lemma LoggedOnce(s: State, t: nat, outcome: Outcome)
    requires IsRunning(s, t) && RunningOk(s, t) && Logged(s.log, t, s.threads[t])
    requires Linearize(s.fs, s.threads[t].op, s.threads[t].phase.point, outcome).Some?
    ensures s.threads[t].event == None
  {
    hide RightKind, HoldsDescriptors, HoldsTemporary, HoldsContent, StillValidated, ReadsPrefix, Outcomes, PathFor, Is;
  }

  lemma ParametersOf(fs: Fs, op: Op, point: Point, action: Option<Action>, trusted: bool)
    requires ThreadOk(fs, op, point, action, trusted)
    ensures RightKind(op, point) && HoldsDescriptors(fs, op, point) && HoldsTemporary(fs, op, point)
    ensures HoldsContent(fs, op, point) && Outcomes(fs, op, point) && LogsRight(fs, op, point, action, trusted)
  {
    hide RightKind, HoldsDescriptors, HoldsTemporary, HoldsContent, StillValidated, ReadsPrefix, Outcomes, LogsRight;
  }

  /** Losing trust only loses what depends on it. */
  lemma TrustLost(fs: Fs, op: Op, point: Point, action: Option<Action>, before: bool, trusted: bool)
    requires ThreadOk(fs, op, point, action, before) && (trusted ==> before)
    ensures ThreadOk(fs, op, point, action, trusted)
  {
    hide RightKind, HoldsDescriptors, HoldsTemporary, HoldsContent, ReadsPrefix, Outcomes, PathFor, Is, Plain;
  }

  /** The running operation's own part of the invariant. */
  lemma OwnThreadAdvances(s: State, t: nat, fault: Disturbance)
    requires CanAdvance(s, t)
    requires Consistent(s.fs) && RunningOk(s, t) && Logged(s.log, t, s.threads[t])
    ensures RunningOk(AfterAdvance(s, t, fault), t)
  {
    hide Consistent, ThreadOk, Exec, Next, Linearize, CallOf, Callable, Fits, HonestAt, AfterAdvance;
    AdvanceShape(s, t, fault);
    var thread := s.threads[t];
    var point := thread.phase.point;
    var action := ActionAt(s.log, thread.event);
    var trusted := thread.trusted && HonestAt(point, fault);
    TrustLost(s.fs, thread.op, point, action, thread.trusted, trusted);
    StepAdvances(s.fs, thread.op, point, action, fault, trusted);
    var outcome := Exec(s.fs, CallOf(thread.op, point), fault).1;
    if Linearize(s.fs, thread.op, point, outcome).Some? {
      assert ActionAt(AfterAdvance(s, t, fault).log, Some(|s.log|)) == Linearize(s.fs, thread.op, point, outcome);
    }
  }

  lemma LaterActions(log: seq<Event>, more: seq<Event>, t: nat, thread: Thread)
    requires Logged(log, t, thread)
    ensures ActionAt(log + more, thread.event) == ActionAt(log, thread.event)
    ensures Logged(log + more, t, thread)
  {
    hide Explains;
  }

  /** Every other running operation keeps its part, and stays apart from this one. */
  lemma OtherThreadKept(s: State, t: nat, fault: Disturbance, u: nat)
    requires CanAdvance(s, t) && Invariant(s) && u in s.threads && u != t
    ensures RunningOk(AfterAdvance(s, t, fault), u)
    ensures PairApart(AfterAdvance(s, t, fault), t, u) && PairApart(AfterAdvance(s, t, fault), u, t)
  {
    hide Consistent, Durable, ReadersFrozen, LocksOk, SettledOk, WritesKnown, LegalLog, Replay, ThreadOk, Exec, Next,
         Linearize, CallOf, Callable, Fits, AfterAdvance, Apart, RightKind, HoldsDescriptors, HoldsTemporary, Separate,
         Guarantee, Undisturbed, View, Logged;
    AdvanceShape(s, t, fault);
    var after := AfterAdvance(s, t, fault);
    LaterActions(s.log, after.log[|s.log|..], u, s.threads[u]);
    assert after.log == s.log + after.log[|s.log|..];
    if IsRunning(s, u) {
      var op, point := s.threads[t].op, s.threads[t].phase.point;
      var op2, point2 := s.threads[u].op, s.threads[u].phase.point;
      var action, action2 := ActionAt(s.log, s.threads[t].event), ActionAt(s.log, s.threads[u].event);
      assert RunningOk(s, t) && RunningOk(s, u) && PairApart(s, t, u) && PairApart(s, u, t);
      ParametersOf(s.fs, op, point, action, s.threads[t].trusted);
      ParametersOf(s.fs, op2, point2, action2, s.threads[u].trusted);
      PairSeparate(s, t, u);
      StepGuaranteed(s.fs, op, point, fault);
      GuaranteeMeetsRely(s.fs, after.fs, op, point, op2, point2);
      ThreadStable(s.fs, after.fs, s.written, op2, point2, action2, s.threads[u].trusted);
      StaysApart(s.fs, op, point, fault, op2, point2);
      ApartIsSymmetric(op, after.threads[t].phase.point, op2, point2);
    }
  }

  lemma ApartIsSymmetric(op: Op, point: Point, op2: Op, point2: Point)
    requires Apart(op, point, op2, point2)
    ensures Apart(op2, point2, op, point)
  {
    hide Owns, Temporary;
  }

  lemma LocksAdvance(s: State, t: nat, fault: Disturbance)
    requires CanAdvance(s, t) && LocksOk(s)
    ensures LocksOk(AfterAdvance(s, t, fault))
  {
    hide Exec, Next, Linearize, CallOf, Callable, Fits, AfterAdvance, StripeOf;
    AdvanceShape(s, t, fault);
    var after := AfterAdvance(s, t, fault);
    assert forall u :: IsMutator(after, u) <==> IsMutator(s, u);
  }

  lemma HistoryAdvances(s: State, t: nat, fault: Disturbance)
    requires CanAdvance(s, t) && Invariant(s)
    ensures HistoryOk(AfterAdvance(s, t, fault))
  {
    hide Consistent, Durable, ReadersFrozen, LocksOk, SettledOk, WritesKnown, ThreadOk, Exec, Next, Linearize, CallOf,
         Callable, Fits, AfterAdvance, RightKind, HoldsDescriptors, HoldsTemporary, Guarantee, View, Logged, HonestAt,
         PairApart, LegalLog, Replay, Legal, Apply;
    AdvanceShape(s, t, fault);
    var after := AfterAdvance(s, t, fault);
    var op, point := s.threads[t].op, s.threads[t].phase.point;
    var outcome := Exec(s.fs, CallOf(op, point), fault).1;
    var entry := Linearize(s.fs, op, point, outcome);
    assert RunningOk(s, t);
    ParametersOf(s.fs, op, point, ActionAt(s.log, s.threads[t].event), s.threads[t].trusted);
    StepGuaranteed(s.fs, op, point, fault);
    StepView(s.fs, s.written, op, point, ActionAt(s.log, s.threads[t].event), fault, s.threads[t].trusted);
    if entry.Some? {
      LoggedOnce(s, t, outcome);
      LinearizesOwn(s.fs, op, point, outcome);
      LegalAppend(s.base, s.log, Event(t, entry.value));
    }
    forall u <- after.threads
      ensures Logged(after.log, u, after.threads[u])
    {
      LaterActions(s.log, after.log[|s.log|..], u, s.threads[u]);
      assert after.log == s.log + after.log[|s.log|..];
      if u == t {
        OwnEntryLogged(s.log, t, s.threads[t], after.threads[t], entry);
      }
    }
  }

  lemma LinearizesOwn(fs: Fs, op: Op, point: Point, outcome: Outcome)
    ensures Linearize(fs, op, point, outcome).Some? ==> OwnEntry(op, Linearize(fs, op, point, outcome).value)
  {
    hide PathFor, Is, Content;
  }

  lemma OwnEntryLogged(log: seq<Event>, t: nat, thread: Thread, next: Thread, entry: Option<Action>)
    requires Logged(log, t, thread) && next.phase.Running? && next.invokedAt == thread.invokedAt
    requires next.op == thread.op && (entry.Some? ==> OwnEntry(thread.op, entry.value))
    requires next.event == if entry.Some? then Some(|log|) else thread.event
    ensures Logged(if entry.Some? then log + [Event(t, entry.value)] else log, t, next)
  {
    hide Explains;
  }

  /** A settled name is no running mutation's, so no call moves it or makes it less durable. */
  lemma SettledStays(s: State, t: nat, fault: Disturbance, path: Path)
    requires CanAdvance(s, t) && Invariant(s) && path in s.settled
    ensures SettledAt(AfterAdvance(s, t, fault).fs, path, s.settled[path])
  {
    hide Consistent, Durable, ReadersFrozen, LocksOk, HistoryOk, WritesKnown, ThreadOk, Exec, Next, Linearize, CallOf,
         Callable, Fits, AfterAdvance, RightKind, HoldsDescriptors, HoldsTemporary, Guarantee, View, PairApart, PathFor,
         Candidates, Binding;
    AdvanceShape(s, t, fault);
    var op, point := s.threads[t].op, s.threads[t].phase.point;
    assert RunningOk(s, t);
    ParametersOf(s.fs, op, point, ActionAt(s.log, s.threads[t].event), s.threads[t].trusted);
    StepGuaranteed(s.fs, op, point, fault);
    assert op.Get? || IsMutator(s, t);
    ViewElsewhere(s.fs, AfterAdvance(s, t, fault).fs, s.written, op, point, path);
    SettledCandidates(s.fs, AfterAdvance(s, t, fault).fs, op, point, path);
  }

  lemma SettledCandidates(fs: Fs, after: Fs, op: Op, point: Point, path: Path)
    requires Guarantee(fs, after, op, point) && RightKind(op, point)
    requires Layout.IsCredentialName(path.name) && (path != PathFor(op) || op.Get?)
    requires Candidates(fs, path) == {Binding(fs, path)}
    ensures Candidates(after, path) == {Binding(after, path)}
  {
    hide PathFor, Owns, TemporaryInode, Unwritten, Candidates, Binding;
  }

  lemma SettledAdvances(s: State, t: nat, fault: Disturbance)
    requires CanAdvance(s, t) && Invariant(s)
    ensures SettledOk(AfterAdvance(s, t, fault))
  {
    hide Consistent, Durable, ReadersFrozen, LocksOk, HistoryOk, WritesKnown, RunningOk, Exec, Next, Linearize, CallOf,
         Callable, Fits, AfterAdvance, PairApart, PathFor, SettledAt;
    AdvanceShape(s, t, fault);
    var after := AfterAdvance(s, t, fault);
    assert forall u :: IsMutator(after, u) <==> IsMutator(s, u);
    forall path <- after.settled
      ensures SettledAt(after.fs, path, after.settled[path])
    {
      SettledStays(s, t, fault, path);
    }
  }

  lemma StorageAdvances(s: State, t: nat, fault: Disturbance)
    requires CanAdvance(s, t) && Invariant(s)
    ensures var after := AfterAdvance(s, t, fault);
            Consistent(after.fs) && Durable(after.fs, after.written) && ReadersFrozen(after.fs) && WritesKnown(after)
  {
    hide Consistent, Durable, ReadersFrozen, LocksOk, HistoryOk, SettledOk, ThreadOk, Exec, Next, Linearize, CallOf,
         Callable, Fits, AfterAdvance, RightKind, HoldsDescriptors, HoldsTemporary, HoldsContent, Guarantee, PairApart,
         PathFor;
    AdvanceShape(s, t, fault);
    var op, point := s.threads[t].op, s.threads[t].phase.point;
    var after := AfterAdvance(s, t, fault);
    assert RunningOk(s, t);
    ParametersOf(s.fs, op, point, ActionAt(s.log, s.threads[t].event), s.threads[t].trusted);
    StepGuaranteed(s.fs, op, point, fault);
    ExecConsistent(s.fs, CallOf(op, point), fault);
    StepDurable(s.fs, after.fs, s.written, op, point);
    StepReadersFrozen(s.fs, after.fs, s.written, op, point);
  }

  /** A directory that an operation has open stays open until its call closes it. */
  lemma NextKeepsDirectories(op: Op, uid: nat, point: Point, outcome: Outcome)
    requires !point.Finished? && Fits(CallOf(op, point), outcome)
    ensures forall d <- Directories(op, point) ::
      d in Directories(op, Next(op, uid, point, outcome)) || CallOf(op, point) == Close(d)
  {
    hide Is, OperationError, CredentialProblem, PathFor, Layout.TemporaryName, AfterReading, AfterCleanup, JoinOptional;
  }

  lemma NextKeepsFile(op: Op, uid: nat, point: Point, outcome: Outcome)
    requires !point.Finished? && Fits(CallOf(op, point), outcome) && File(point).Some?
    ensures File(Next(op, uid, point, outcome)) == File(point) || CallOf(op, point) == Close(File(point).value)
  {
    hide Is, OperationError, CredentialProblem, PathFor, Layout.TemporaryName, AfterReading, AfterCleanup, JoinOptional,
         Directories;
  }

  lemma NextOwnsOpened(op: Op, uid: nat, point: Point, outcome: Outcome)
    requires !point.Finished? && Fits(CallOf(op, point), outcome) && outcome.Opened?
    ensures var next := Next(op, uid, point, outcome);
            outcome.descriptor in Directories(op, next) || File(next) == Some(outcome.descriptor)
  {
    hide Is, OperationError, CredentialProblem, PathFor, Layout.TemporaryName, AfterReading, AfterCleanup, JoinOptional;
  }

  /** What an operation owned it still owns, unless its call closed it; what it was given it owns. */
  lemma NextKeepsOwned(op: Op, uid: nat, point: Point, outcome: Outcome)
    requires !point.Finished? && Fits(CallOf(op, point), outcome)
    ensures var next := Next(op, uid, point, outcome);
            && (forall d <- Owns(op, point) :: d in Owns(op, next) || CallOf(op, point) == Close(d))
            && (outcome.Opened? ==> outcome.descriptor in Owns(op, next))
  {
    hide Next, CallOf, Fits, Directories, File;
    NextKeepsDirectories(op, uid, point, outcome);
    if File(point).Some? {
      NextKeepsFile(op, uid, point, outcome);
    }
    if outcome.Opened? {
      NextOwnsOpened(op, uid, point, outcome);
    }
  }

  lemma CallOpens(fs: Fs, call: Call, fault: Disturbance)
    requires Callable(fs, call)
    ensures var (after, outcome) := Exec(fs, call, fault);
            && (forall d <- after.open :: d in fs.open || outcome == Opened(d))
            && (call.Close? ==> call.descriptor !in after.open)
  {
    hide SecureDirectory, Candidates, Binding;
  }

  lemma OwnedAdvances(s: State, t: nat, fault: Disturbance)
    requires CanAdvance(s, t) && OpenOwned(s)
    ensures OpenOwned(AfterAdvance(s, t, fault))
  {
    hide Exec, Next, Linearize, CallOf, Callable, Fits, AfterAdvance, HonestAt, Owns, OpenOwned;
    AdvanceShape(s, t, fault);
    var thread := s.threads[t];
    var after := AfterAdvance(s, t, fault);
    var call := CallOf(thread.op, thread.phase.point);
    CallOpens(s.fs, call, fault);
    NextKeepsOwned(thread.op, s.fs.uid, thread.phase.point, Exec(s.fs, call, fault).1);
    forall d <- after.fs.open
      ensures exists u | u in after.threads :: OwnedBy(after, d, u)
    {
      if d in s.fs.open {
        var u := Owner(s, d);
        assert u == t || after.threads[u] == s.threads[u];
        assert OwnedBy(after, d, u);
      } else {
        assert OwnedBy(after, d, t);
      }
    }
    OwnedEach(after);
  }

  lemma OwnedEach(s: State)
    requires forall d <- s.fs.open :: exists t | t in s.threads :: OwnedBy(s, d, t)
    ensures OpenOwned(s)
  {
    hide OwnedBy;
  }

  lemma Owner(s: State, d: int) returns (t: nat)
    requires OpenOwned(s) && d in s.fs.open
    ensures t in s.threads && OwnedBy(s, d, t)
  {
    hide OwnedBy;
    t :| t in s.threads && OwnedBy(s, d, t);
  }

  /** One system call of one operation, under any fault, keeps the whole invariant. */
  lemma AdvanceKeeps(s: State, t: nat, fault: Disturbance)
    requires CanAdvance(s, t) && Invariant(s)
    ensures Invariant(AfterAdvance(s, t, fault))
  {
    hide Consistent, Durable, ReadersFrozen, LocksOk, HistoryOk, SettledOk, WritesKnown, RunningOk, PairApart, Exec,
         Next, Linearize, CallOf, Callable, Fits, AfterAdvance, HonestAt, OpenOwned;
    AdvanceShape(s, t, fault);
    var after := AfterAdvance(s, t, fault);
    StorageAdvances(s, t, fault);
    LoggedThread(s, t);
    OwnThreadAdvances(s, t, fault);
    LocksAdvance(s, t, fault);
    HistoryAdvances(s, t, fault);
    SettledAdvances(s, t, fault);
    OwnedAdvances(s, t, fault);
    forall u <- after.threads
      ensures RunningOk(after, u)
      ensures PairApart(after, t, u) && PairApart(after, u, t)
    {
      if u != t {
        OtherThreadKept(s, t, fault, u);
      } else {
        ApartFromItself(after, t);
      }
    }
    forall u <- after.threads, v <- after.threads
      ensures PairApart(after, u, v)
    {
      if u != t && v != t {
        assert PairApart(s, u, v);
        PairUnchanged(s, after, u, v);
      }
    }
  }

  lemma LoggedThread(s: State, t: nat)
    requires HistoryOk(s) && t in s.threads
    ensures Logged(s.log, t, s.threads[t])
  {
    hide Logged, LegalLog, Replay, View;
  }

  lemma ApartFromItself(s: State, t: nat)
    ensures PairApart(s, t, t)
  {
  }

  lemma PairUnchanged(s: State, after: State, u: nat, v: nat)
    requires u in s.threads && v in s.threads && u in after.threads && v in after.threads
    requires after.threads[u] == s.threads[u] && after.threads[v] == s.threads[v] && PairApart(s, u, v)
    ensures PairApart(after, u, v)
  {
    hide Apart;
  }
}
