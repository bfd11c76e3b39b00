/**
 Any number of concurrent Get, Set and Delete operations over one root, one system call at a time,
 with the striped locks of internal/backend/fs/keyring.go:80-114 and with crashes.

 Each service has one Keyring and hence its own stripes. An operation is an instance of `Program`; its
 next call may be hit by any fault. The log records, in order, what each operation did to or saw in the
 map of credentials, at the call that decides it.
 */
module Machine {
  import opened Wrappers
  import opened Errors
  import opened Filesystem
  import opened Program
  import opened Invariants
  import opened LinuxSystem
  import Layout

  type Credentials = map<Path, Bytes>

  datatype Action =
    | Wrote(path: Path, value: Bytes)
    | Removed(path: Path)
    | Saw(path: Path, found: Option<Bytes>)

  datatype Event = Event(thread: nat, action: Action)

  datatype Phase = Waiting | Running(point: Point) | Responded(reply: Reply, at: nat)

  /**
   `invokedAt` is the length of the log at invocation, `event` the position of the operation's entry,
   and `trusted` says that every fault that hit the operation so far was honest.
   */
  datatype Thread = Thread(op: Op, phase: Phase, invokedAt: nat, event: Option<nat>, trusted: bool)

  type Stripe = (string, nat)

  /**
   `base` is what the log starts from and `written` every (name, value) that was there at the start or
   that some Set was called with. `settled` holds the names whose last mutation reported success, with
   none since having taken the lock.
   */
  datatype State = State(
    fs: Fs,
    threads: map<nat, Thread>,
    locks: map<Stripe, nat>,
    log: seq<Event>,
    base: Credentials,
    written: set<(Path, Bytes)>,
    settled: map<Path, Option<Bytes>>)

  datatype Step =
    | Invoke(thread: nat, op: Op)
    | Acquire(thread: nat)
    | Advance(thread: nat, fault: Disturbance)
    | Respond(thread: nat)
    | Crash(left: Fs)

  function Content(fs: Fs, inode: Inode): Bytes {
    if inode in fs.nodes then fs.nodes[inode].content else []
  }

  /** The map of credentials that the directory entries spell out. */
  function View(fs: Fs): Credentials {
    map path | path in fs.entries && Layout.IsCredentialName(path.name) :: Content(fs, fs.entries[path])
  }

  function Lookup(credentials: Credentials, path: Path): Option<Bytes> {
    if path in credentials then Some(credentials[path]) else None
  }

  predicate Legal(credentials: Credentials, action: Action) {
    match action
    case Wrote(_, _) => true
    case Removed(path) => path in credentials
    case Saw(path, found) => Lookup(credentials, path) == found
  }

  function Apply(credentials: Credentials, action: Action): Credentials {
    match action
    case Wrote(path, value) => credentials[path := value]
    case Removed(path) => credentials - {path}
    case Saw(_, _) => credentials
  }

  function Replay(base: Credentials, log: seq<Event>): Credentials {
    if log == [] then base else Apply(Replay(base, log[..|log| - 1]), log[|log| - 1].action)
  }

  /** Every entry is what a map would have done at that place. */
  predicate LegalLog(base: Credentials, log: seq<Event>) {
    forall i | 0 <= i < |log| :: Legal(Replay(base, log[..i]), log[i].action)
  }

  function StripeOf(op: Op): Stripe {
    (op.service, Layout.Stripe(op.digest))
  }

  /** Being told that something is missing counts as having seen it only where the name is indeed absent. */
  function MissingEntry(fs: Fs, op: Op, outcome: Outcome): Option<Action> {
    if !op.Set? && outcome.Failed? && Is(outcome.error, Std(NotExist)) && PathFor(op) !in fs.entries then
      Some(Saw(PathFor(op), None))
    else
      None
  }

  /** The call at which an operation takes effect, or learns that there is nothing to do it on. */
  function Linearize(fs: Fs, op: Op, point: Point, outcome: Outcome): Option<Action> {
    match point
    case AtRoot => MissingEntry(fs, op, outcome)
    case AtVersion(_) => MissingEntry(fs, op, outcome)
    case AtService(_, _) => MissingEntry(fs, op, outcome)
    case AtOpen(_) =>
      if op.Get? && outcome.Opened? && PathFor(op) in fs.entries then
        Some(Saw(PathFor(op), Some(Content(fs, fs.entries[PathFor(op)]))))
      else
        MissingEntry(fs, op, outcome)
    case AtRename(_, _, _) => if op.Set? && outcome.Done? then Some(Wrote(PathFor(op), op.value)) else None
    case AtUnlink(_, _) => if op.Delete? && outcome.Done? then Some(Removed(PathFor(op))) else None
    case _ => None
  }

  predicate IsRunning(s: State, t: nat) {
    t in s.threads && s.threads[t].phase.Running?
  }

  predicate IsMutator(s: State, t: nat) {
    IsRunning(s, t) && !s.threads[t].op.Get?
  }

  predicate CanAdvance(s: State, t: nat) {
    && IsRunning(s, t)
    && !s.threads[t].phase.point.Finished?
    && Callable(s.fs, CallOf(s.threads[t].op, s.threads[t].phase.point))
  }

  predicate CanRespond(s: State, t: nat) {
    IsRunning(s, t) && s.threads[t].phase.point.Finished?
  }

  predicate CanAcquire(s: State, t: nat) {
    t in s.threads && s.threads[t].phase.Waiting? && StripeOf(s.threads[t].op) !in s.locks
  }

  ghost predicate Enabled(s: State, step: Step) {
    match step
    case Invoke(t, _) => t !in s.threads
    case Acquire(t) => CanAcquire(s, t)
    case Advance(t, _) => CanAdvance(s, t)
    case Respond(t) => CanRespond(s, t)
    case Crash(left) => CrashOutcome(s.fs, left)
  }

  function WithThread(s: State, t: nat, thread: Thread): State {
    s.(threads := s.threads[t := thread])
  }

  function AfterInvoke(s: State, t: nat, op: Op): State {
    var phase := if op.Get? then Running(AtMount) else Waiting;
    WithThread(s, t, Thread(op, phase, |s.log|, None, true))
    .(written := if op.Set? then s.written + {(PathFor(op), op.value)} else s.written)
  }

  function AfterAcquire(s: State, t: nat): State
    requires t in s.threads
  {
    var thread := s.threads[t];
    WithThread(s, t, thread.(phase := Running(AtMount)))
    .(locks := s.locks[StripeOf(thread.op) := t], settled := s.settled - {PathFor(thread.op)})
  }

  function AfterAdvance(s: State, t: nat, fault: Disturbance): State
    requires CanAdvance(s, t)
  {
    var Thread(op, phase, invokedAt, event, before) := s.threads[t];
    var (fs, outcome) := Exec(s.fs, CallOf(op, phase.point), fault);
    ExecFits(s.fs, CallOf(op, phase.point), fault);
    var next := Running(Next(op, s.fs.uid, phase.point, outcome));
    var trusted := before && HonestAt(phase.point, fault);
    match Linearize(s.fs, op, phase.point, outcome)
    case None => WithThread(s, t, Thread(op, next, invokedAt, event, trusted)).(fs := fs)
    case Some(action) =>
      WithThread(s, t, Thread(op, next, invokedAt, Some(|s.log|), trusted)).(fs := fs, log := s.log + [Event(t, action)])
  }

  function AfterRespond(s: State, t: nat): State
    requires CanRespond(s, t)
  {
    var thread := s.threads[t];
    var reply := thread.phase.point.reply;
    WithThread(s, t, thread.(phase := Responded(reply, |s.log|)))
    .(locks := if thread.op.Get? then s.locks else s.locks - {StripeOf(thread.op)},
      settled := if thread.op.Get? || !reply.Stored? then
                   s.settled
                 else
                   s.settled[PathFor(thread.op) := if thread.op.Set? then Some(thread.op.value) else None])
  }

  /** The machine stops; what `left` spells out is where the next history starts. */
  function AfterCrash(s: State, left: Fs): State {
    s.(fs := left, threads := map[], locks := map[], log := [], base := View(left))
  }

  ghost function After(s: State, step: Step): State
    requires Enabled(s, step)
  {
    match step
    case Invoke(t, op) => AfterInvoke(s, t, op)
    case Acquire(t) => AfterAcquire(s, t)
    case Advance(t, fault) => AfterAdvance(s, t, fault)
    case Respond(t) => AfterRespond(s, t)
    case Crash(left) => AfterCrash(s, left)
  }

  /** `steps` can be taken one after the other from `s`. */
  ghost predicate Possible(s: State, steps: seq<Step>)
    decreases |steps|
  {
    steps == [] || (Enabled(s, steps[0]) && Possible(After(s, steps[0]), steps[1..]))
  }

  ghost function Execute(s: State, steps: seq<Step>): State
    requires Possible(s, steps)
    decreases |steps|
  {
    if steps == [] then s else Execute(After(s, steps[0]), steps[1..])
  }

  /** A store nobody uses yet: no descriptors, and every credential is safely on disk. */
  ghost predicate Initial(s: State) {
    && Consistent(s.fs)
    && s.fs.open == map[] && s.fs.candidates == map[]
    && (forall path <- s.fs.entries | Layout.IsCredentialName(path.name) ::
          s.fs.entries[path] in s.fs.synced && (path, Content(s.fs, s.fs.entries[path])) in s.written)
    && s.threads == map[] && s.locks == map[] && s.log == [] && s.settled == map[]
    && s.base == View(s.fs)
  }
}
