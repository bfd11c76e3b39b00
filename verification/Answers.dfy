/**
 What an operation answers, told from what happened to its calls and from nothing else.

 Every call is recorded. One complaint settles the answer; whatever else fails after it, the answer
 still matches it; and an operation without a complaint succeeds.
 */
module Answers {
  import opened Wrappers
  import opened Errors
  import opened Filesystem
  import opened Program

  /** A call made at a control point by an operation of the user `uid`, and how it ended. */
  datatype Event = Event(uid: nat, point: Point, outcome: Outcome)

  /** What complaints a history holds: none, one, or `error` and others after it. */
  datatype Trouble = Clean | Only(error: Error) | First(error: Error)

  predicate Private(meta: Meta, uid: nat) {
    meta.kind == Regular && meta.uid == uid && meta.mode % 64 == 0
  }

  /**
   What a call gives its operation to answer for. The results of closing a directory and of closing a
   file that failed its inspection are dropped; a Set may find no file; a temporary name may be taken,
   but not by the last of 128 attempts; and a temporary may be gone when it is cleaned up.
   */
  function Complaint(op: Op, attempts: nat, event: Event): Option<Error> {
    var Event(uid, point, outcome) := event;
    match point
    case AtCloseVersion(_, _, _) => None
    case AtCloseRoot(_, _) => None
    case AtCloseInvalid(_, _, _) => None
    case AtCloseDirectory(_, _) => None
    case AtOpen(_) =>
      if outcome.Failed? && !(op.Set? && Is(outcome.error, Std(NotExist))) then Some(outcome.error) else None
    case AtStat(_, _) =>
      if outcome.Failed? then
        if op.Set? && Is(outcome.error, Std(NotExist)) then None else Some(outcome.error)
      else if outcome.Status? && Private(outcome.meta, uid) then
        None
      else
        Some(Errors.Fault(InsecureFallback))
    case AtCreate(_, _, _, _) =>
      if !outcome.Failed? then None
      else if !Is(outcome.error, Std(Exist)) then Some(outcome.error)
      else if attempts + 1 < 128 then None
      else Some(Other(1, true))
    case AtWrite(_, _, _, _, _) =>
      if outcome.Transferred? && outcome.problem.None? && outcome.count == 0 then
        Some(Std(ShortWrite))
      else if outcome.Transferred? then
        outcome.problem
      else
        None
    case AtCleanupUnlink(_, _, _) =>
      if outcome.Failed? && !Is(outcome.error, Std(NotExist)) then Some(outcome.error) else None
    case _ =>
      if outcome.Failed? then Some(outcome.error)
      else if outcome.Transferred? then outcome.problem
      else None
  }

  function With(trouble: Trouble, complaint: Option<Error>): Trouble {
    match complaint
    case None => trouble
    case Some(err) => if trouble.Clean? then Only(err) else First(trouble.error)
  }

  function TroubleOf(op: Op, history: seq<Event>): Trouble {
    if history == [] then
      Clean
    else
      var earlier, last := history[..|history| - 1], history[|history| - 1];
      With(TroubleOf(op, earlier), Complaint(op, Attempts(earlier), last))
  }

  /** How many temporary names were tried. */
  function Attempts(history: seq<Event>): nat {
    if history == [] then
      0
    else
      Attempts(history[..|history| - 1]) + if history[|history| - 1].point.AtCreate? then 1 else 0
  }

  /** An error of a call, and what an operation may answer for it alone. */
  ghost predicate AnswersFor(missing: bool, err: Error, answer: Error) {
    && Keeps(answer, err)
    && (forall number: SystemNumber | err == Errno(number) || err == Annotate(Errno(number)) ::
          Exactly(answer, NumberCategory(missing, number)))
    && (err == Errors.Fault(InsecureFallback) ==> Exactly(answer, InsecureFallback))
    && (err == Std(ShortWrite) || err == Other(1, true) ==> Exactly(answer, BackendFailure))
    && (Unremarkable(err) ==> Exactly(answer, BackendFailure))
    && (Ordinary(err) && Spoken(err) ==> forall category: Category :: IsCategory(answer, category) <==> IsCategory(err, category))
  }

  /** No class of system errors that the backend looks for. */
  predicate Ordinary(err: Error) {
    && !Is(err, Std(NotExist)) && !Is(err, Std(Permission))
    && !Is(err, Errno(ELOOP)) && !Is(err, Errno(ENOTDIR)) && !Is(err, Errno(EISDIR))
  }

  ghost predicate Unremarkable(err: Error) {
    Ordinary(err) && forall category: Category :: !IsCategory(err, category)
  }

  /** The error already carries a category that the backend leaves as it is. */
  predicate Spoken(err: Error) {
    || IsCategory(err, InvalidArgument) || IsCategory(err, InsecureFallback) || IsCategory(err, PermissionDenied)
    || IsCategory(err, BackendUnavailable) || IsCategory(err, Unsupported) || IsCategory(err, BackendFailure)
  }

  /** The answer that the history of a finished operation calls for. */
  ghost predicate Answered(op: Op, trouble: Trouble, reply: Reply) {
    match trouble
    case Clean => !reply.Rejected?
    case Only(err) => reply.Rejected? && AnswersFor(!op.Set?, err, reply.error)
    case First(err) => reply.Rejected? && Keeps(reply.error, err)
  }

  /** `err` is `cause` under nodes that add nothing. */
  predicate Wraps(err: Error, cause: Error)
    decreases err
  {
    err == cause || (err.One? && Wraps(err.cause, cause))
  }

  /** An error inside a control point that stands for the trouble so far. */
  ghost predicate Carries(trouble: Trouble, err: Error) {
    match trouble
    case Clean => false
    case Only(cause) => Wraps(err, cause)
    case First(cause) => Keeps(err, cause)
  }

  /** What holds at every control point that an operation reaches. */
  ghost predicate Sound(op: Op, trouble: Trouble, point: Point) {
    match point
    case AtCloseVersion(_, _, result) => if result.Success? then trouble.Clean? else Carries(trouble, result.error)
    case AtCloseRoot(_, result) => if result.Success? then trouble.Clean? else Carries(trouble, result.error)
    case AtCloseInvalid(_, _, problem) =>
      if op.Set? && Is(problem, Std(NotExist)) then trouble.Clean? else Carries(trouble, problem)
    case AtRead(_, _, _) => op.Get? && trouble.Clean?
    case AtCloseRead(_, _, _, problem) => op.Get? && if problem.None? then trouble.Clean? else Carries(trouble, problem.value)
    case AtCleanupClose(_, _, _, problem) => Carries(trouble, problem)
    case AtCleanupUnlink(_, _, problem) => Carries(trouble, problem)
    case AtCloseDirectory(_, reply) => Answered(op, trouble, reply)
    case Finished(reply) => Answered(op, trouble, reply)
    case _ => trouble.Clean?
  }

  /** No temporary name is tried before validation is over, and at most 128 are. */
  predicate Counted(attempts: nat, point: Point) {
    match point
    case AtRandom(_, _, attempt) => attempt == attempts < 128
    case AtCreate(_, _, attempt, _) => attempt == attempts < 128
    case AtMount => attempts == 0
    case AtPrepare => attempts == 0
    case AtRoot => attempts == 0
    case AtVersion(_) => attempts == 0
    case AtService(_, _) => attempts == 0
    case AtCloseVersion(_, _, _) => attempts == 0
    case AtCloseRoot(_, _) => attempts == 0
    case AtOpen(_) => attempts == 0
    case AtStat(_, _) => attempts == 0
    case AtCloseInvalid(_, _, _) => attempts == 0
    case AtCloseChecked(_, _, _) => attempts == 0
    case _ => attempts <= 128
  }

  ghost predicate Accounted(op: Op, history: seq<Event>, point: Point) {
    Sound(op, TroubleOf(op, history), point) && Counted(Attempts(history), point)
  }

  lemma KeepsCauses(op: Op, err: Error, cause: Error)
    requires Keeps(err, cause)
    ensures Keeps(OperationError(!op.Set?, err), cause)
  {
    hide OperationError, Is;
    forall target: Error | Is(cause, target)
      ensures Is(OperationError(!op.Set?, err), target)
    {
      OperationErrorKeepsCause(!op.Set?, err, target);
    }
  }

  /** Nodes around an error change nothing that the backend looks for. */
  lemma {:induction false} WrappedMatchesAlike(err: Error, cause: Error, target: Error)
    requires Wraps(err, cause) && !target.One?
    ensures Is(err, target) <==> Is(cause, target)
    decreases err
  {
    if err != cause {
      WrappedMatchesAlike(err.cause, cause, target);
    }
  }

  lemma WrappedSpokenAlike(err: Error, cause: Error)
    requires Wraps(err, cause)
    ensures Is(err, Std(NotExist)) <==> Is(cause, Std(NotExist))
    ensures Is(err, Std(Permission)) <==> Is(cause, Std(Permission))
    ensures Ordinary(err) <==> Ordinary(cause)
    ensures Spoken(err) <==> Spoken(cause)
    ensures forall number: SystemNumber :: Is(err, Errno(number)) <==> Is(cause, Errno(number))
    ensures forall category: Category :: IsCategory(err, category) <==> IsCategory(cause, category)
  {
    hide Is;
    forall target: Error | !target.One?
      ensures Is(err, target) <==> Is(cause, target)
    {
      WrappedMatchesAlike(err, cause, target);
    }
  }

  /** So the answer is the same, node for node but the cause. */
  lemma WrappedAnswersAlike(missing: bool, err: Error, cause: Error, category: Category)
    requires Wraps(err, cause)
    ensures IsCategory(OperationError(missing, err), category) <==> IsCategory(OperationError(missing, cause), category)
  {
    hide Is, Wraps;
    WrappedSpokenAlike(err, cause);
    TaggedAlike(err, cause, category);
  }

  lemma TaggedAlike(err: Error, cause: Error, category: Category)
    requires IsCategory(err, category) <==> IsCategory(cause, category)
    ensures IsCategory(Annotate(err), category) <==> IsCategory(Annotate(cause), category)
    ensures forall tag: Category :: IsCategory(Tag(tag, err), category) <==> IsCategory(Tag(tag, cause), category)
  {
    forall tag: Category
      ensures IsCategory(Tag(tag, err), category) <==> IsCategory(Tag(tag, cause), category)
    {
      TagIs(tag, err, category);
      TagIs(tag, cause, category);
    }
  }

  lemma NumberAnswered(missing: bool, number: SystemNumber)
    ensures Exactly(OperationError(missing, Errno(number)), NumberCategory(missing, number))
    ensures Exactly(OperationError(missing, Annotate(Errno(number))), NumberCategory(missing, number))
  {
    hide OperationError, NumberCategory, IsCategory;
    forall other: Category
      ensures IsCategory(OperationError(missing, Errno(number)), other) <==> other == NumberCategory(missing, number)
      ensures IsCategory(OperationError(missing, Annotate(Errno(number))), other) <==> other == NumberCategory(missing, number)
    {
      NumbersAreClassified(missing, number, other);
      WrappedAnswersAlike(missing, Annotate(Errno(number)), Errno(number), other);
    }
  }

  lemma InsecureAnswered(missing: bool)
    ensures Exactly(OperationError(missing, Errors.Fault(InsecureFallback)), InsecureFallback)
  {
    var err := Errors.Fault(InsecureFallback);
    FaultIs(InsecureFallback);
    hide Is, OperationError;
    forall other: Category
      ensures IsCategory(OperationError(missing, err), other) <==> other == InsecureFallback
    {
      SpokenAnswered(missing, err, other);
    }
  }

  lemma FaultIs(tag: Category)
    ensures Exactly(Errors.Fault(tag), tag) && Ordinary(Errors.Fault(tag))
  {
    FaultIsExactly(tag);
    hide IsCategory;
  }

  lemma UnremarkableAnswered(missing: bool, err: Error)
    requires Unremarkable(err)
    ensures Exactly(OperationError(missing, err), BackendFailure)
  {
    hide Is;
    forall other: Category
      ensures IsCategory(OperationError(missing, err), other) <==> other == BackendFailure
    {
      TagIs(BackendFailure, err, other);
    }
  }

  lemma PlainIsUnremarkable(err: Error)
    requires err == Std(ShortWrite) || err == Other(1, true)
    ensures Unremarkable(err)
  {
  }

  lemma SpokenAnswered(missing: bool, err: Error, category: Category)
    requires Ordinary(err) && Spoken(err)
    ensures IsCategory(OperationError(missing, err), category) <==> IsCategory(err, category)
  {
  }

  lemma KeptThrough(answer: Error, err: Error, cause: Error)
    requires Keeps(answer, err) && Keeps(err, cause)
    ensures Keeps(answer, cause)
  {
  }

  lemma {:induction false} WrapKeeps(err: Error, cause: Error)
    requires Wraps(err, cause)
    ensures Keeps(err, cause)
    decreases err
  {
    if err != cause {
      WrapKeeps(err.cause, cause);
    }
  }

  /** An error that was the only complaint is answered for what it is, wrapped or not. */
  lemma OnlyAnswered(op: Op, cause: Error, err: Error)
    requires Carries(Only(cause), err)
    ensures AnswersFor(!op.Set?, cause, OperationError(!op.Set?, err))
  {
    hide Is, IsCategory, OperationError, NumberCategory, Keeps, Ordinary, Spoken;
    var missing := !op.Set?;
    WrapKeeps(err, cause);
    KeepsCauses(op, err, cause);
    forall category: Category
      ensures IsCategory(OperationError(missing, err), category) <==> IsCategory(OperationError(missing, cause), category)
    {
      WrappedAnswersAlike(missing, err, cause, category);
    }
    forall number: SystemNumber | cause == Errno(number) || cause == Annotate(Errno(number))
      ensures Exactly(OperationError(missing, err), NumberCategory(missing, number))
    {
      NumberAnswered(missing, number);
    }
    if cause == Errors.Fault(InsecureFallback) {
      InsecureAnswered(missing);
    }
    if cause == Std(ShortWrite) || cause == Other(1, true) {
      PlainIsUnremarkable(cause);
    }
    if Unremarkable(cause) {
      UnremarkableAnswered(missing, cause);
    }
    if Ordinary(cause) && Spoken(cause) {
      forall category: Category
        ensures IsCategory(OperationError(missing, err), category) <==> IsCategory(cause, category)
      {
        SpokenAnswered(missing, cause, category);
      }
    }
  }

  lemma CarriedIsAnswered(op: Op, trouble: Trouble, err: Error)
    requires Carries(trouble, err)
    ensures Answered(op, trouble, Reject(op, err))
  {
    hide Keeps, AnswersFor, OperationError;
    if trouble.Only? {
      OnlyAnswered(op, trouble.error, err);
    } else {
      KeepsCauses(op, err, trouble.error);
    }
  }

  /** A complaint of its own is carried. */
  lemma NewCarried(trouble: Trouble, err: Error)
    requires trouble.Clean?
    ensures Carries(With(trouble, Some(err)), err)
    ensures Carries(With(trouble, Some(err)), One(0, err))
  {
  }

  /** A node around a carried error, alone or with another error beside it, still carries the trouble. */
  lemma JoinCarried(trouble: Trouble, err: Error, other: Option<Error>)
    requires Carries(trouble, err)
    ensures Carries(With(trouble, other), JoinOptional(err, other))
  {
    var first := trouble.error;
    if trouble.Only? {
      WrapKeeps(err, first);
    }
    forall target: Error | Is(first, target)
      ensures Is(JoinOptional(err, other), target)
    {
      assert Is(err, target);
    }
  }

  lemma CleanupCarried(op: Op, trouble: Trouble, event: Event, err: Error, problem: Option<Error>)
    requires Carries(trouble, err)
    requires event.point.AtCleanupUnlink?
    requires problem == if event.outcome.Failed? then Some(event.outcome.error) else None
    ensures Carries(With(trouble, Complaint(op, 0, event)), AfterCleanup(err, problem))
  {
    hide Is;
    JoinCarried(trouble, err, problem);
  }

  lemma ReadCarried(trouble: Trouble, contents: Bytes, readProblem: Option<Error>, closeProblem: Option<Error>, op: Op)
    requires !op.Set?
    requires if readProblem.None? then trouble.Clean? else Carries(trouble, readProblem.value)
    ensures Answered(op, With(trouble, closeProblem), AfterReading(contents, readProblem, closeProblem))
  {
    hide OperationError, AnswersFor, Keeps, Wraps;
    if readProblem.Some? {
      JoinCarried(trouble, readProblem.value, closeProblem);
      CarriedIsAnswered(op, With(trouble, closeProblem), JoinOptional(readProblem.value, closeProblem));
    } else if closeProblem.Some? {
      NewCarried(trouble, closeProblem.value);
      CarriedIsAnswered(op, With(trouble, closeProblem), One(0, closeProblem.value));
    }
  }

  lemma CleanFacts(op: Op)
    ensures forall err: Error :: !Carries(Clean, err)
    ensures forall err: Error :: Carries(Only(err), err)
    ensures forall reply: Reply :: Answered(op, Clean, reply) <==> !reply.Rejected?
    ensures forall err: Error :: Answered(op, Only(err), Reject(op, err))
  {
    hide OperationError;
    forall err: Error
      ensures Carries(Only(err), err) && Answered(op, Only(err), Reject(op, err))
    {
      NewCarried(Clean, err);
      CarriedIsAnswered(op, Only(err), err);
    }
  }

  /** From a point without trouble the call's own complaint is what the next point carries. */
  lemma FreshSound(op: Op, uid: nat, attempts: nat, point: Point, outcome: Outcome)
    requires !point.Finished? && Fits(CallOf(op, point), outcome)
    requires Sound(op, Clean, point)
    requires point.AtCreate? ==> point.attempt == attempts
    ensures Sound(op, With(Clean, Complaint(op, attempts, Event(uid, point, outcome))), Next(op, uid, point, outcome))
  {
    hide Is, OperationError, Carries, Answered;
    CleanFacts(op);
    FaultIs(InsecureFallback);
    if point.AtCloseRead? {
      ReadCarried(Clean, point.contents, None, if outcome.Failed? then Some(outcome.error) else None, op);
    }
  }

  /** From a point in trouble the operation only winds up, and the trouble stays on what it will answer. */
  lemma TroubledSound(op: Op, uid: nat, attempts: nat, point: Point, outcome: Outcome, trouble: Trouble)
    requires !point.Finished? && Fits(CallOf(op, point), outcome)
    requires Sound(op, trouble, point) && !trouble.Clean?
    ensures Sound(op, With(trouble, Complaint(op, attempts, Event(uid, point, outcome))), Next(op, uid, point, outcome))
  {
    hide Is, OperationError, Carries, Answered, JoinOptional, AfterCleanup, AfterReading;
    var event := Event(uid, point, outcome);
    match point
    case AtCloseVersion(_, _, _) =>
    case AtCloseRoot(_, result) => CarriedIsAnswered(op, trouble, result.error);
    case AtCloseInvalid(_, _, problem) => CarriedIsAnswered(op, trouble, problem);
    case AtCloseRead(_, _, contents, problem) =>
      ReadCarried(trouble, contents, problem, if outcome.Failed? then Some(outcome.error) else None, op);
    case AtCleanupClose(_, _, _, problem) =>
      JoinCarried(trouble, problem, if outcome.Failed? then Some(outcome.error) else None);
    case AtCleanupUnlink(_, _, problem) =>
      var failure := if outcome.Failed? then Some(outcome.error) else None;
      CleanupCarried(op, trouble, event, problem, failure);
      CarriedIsAnswered(op, With(trouble, Complaint(op, 0, event)), AfterCleanup(problem, failure));
    case _ =>
  }

  lemma NextCounted(op: Op, uid: nat, attempts: nat, point: Point, outcome: Outcome)
    requires !point.Finished? && Fits(CallOf(op, point), outcome)
    requires Counted(attempts, point)
    ensures Counted(attempts + if point.AtCreate? then 1 else 0, Next(op, uid, point, outcome))
  {
    hide Is, OperationError, AfterReading;
  }

  /** One more call: what the operation carries stays true of its history. */
  lemma NextAccounted(op: Op, uid: nat, history: seq<Event>, point: Point, outcome: Outcome)
    requires !point.Finished? && Fits(CallOf(op, point), outcome)
    requires Accounted(op, history, point)
    ensures Accounted(op, history + [Event(uid, point, outcome)], Next(op, uid, point, outcome))
  {
    hide Sound, Counted, Complaint, Next, CallOf, Fits;
    var longer := history + [Event(uid, point, outcome)];
    assert longer[..|longer| - 1] == history;
    NextCounted(op, uid, Attempts(history), point, outcome);
    if TroubleOf(op, history).Clean? {
      CountedAttempt(Attempts(history), point);
      FreshSound(op, uid, Attempts(history), point, outcome);
    } else {
      TroubledSound(op, uid, Attempts(history), point, outcome, TroubleOf(op, history));
    }
  }

  lemma CountedAttempt(attempts: nat, point: Point)
    requires Counted(attempts, point)
    ensures point.AtCreate? ==> point.attempt == attempts
  {
  }

  /** The history of an operation that has come to `point`: every call is the one its program makes there. */
  ghost predicate Leads(op: Op, history: seq<Event>, point: Point) {
    if history == [] then
      point == AtMount
    else
      var earlier, last := history[..|history| - 1], history[|history| - 1];
      && Leads(op, earlier, last.point)
      && !last.point.Finished?
      && Fits(CallOf(op, last.point), last.outcome)
      && point == Next(op, last.uid, last.point, last.outcome)
  }

  /** Whatever its calls meet, alone or among other operations, an operation that ends is settled. */
  lemma {:induction false} EveryRunIsSettled(op: Op, history: seq<Event>, point: Point)
    requires Leads(op, history, point)
    ensures Accounted(op, history, point)
    ensures point.Finished? ==> Settled(op, history, point.reply)
  {
    hide Accounted, Settled, Next, CallOf, Fits;
    if history == [] {
      NothingHappened(op);
    } else {
      var earlier, last := history[..|history| - 1], history[|history| - 1];
      EveryRunIsSettled(op, earlier, last.point);
      NextAccounted(op, last.uid, earlier, last.point, last.outcome);
      assert history == earlier + [last];
    }
    if point.Finished? {
      FinishedIsSettled(op, history, point.reply);
    }
  }

  lemma NothingHappened(op: Op)
    ensures Accounted(op, [], AtMount)
  {
  }

  /** The answer of a finished operation is the one its history calls for. */
  ghost predicate Settled(op: Op, history: seq<Event>, reply: Reply) {
    Answered(op, TroubleOf(op, history), reply) && Attempts(history) <= 128
  }

  lemma FinishedIsSettled(op: Op, history: seq<Event>, reply: Reply)
    requires Accounted(op, history, Finished(reply))
    ensures Settled(op, history, reply)
  {
  }
}
