/**
 Operations against the Secret Service and the resources they hold: internal/backend/dbus/client.go.

 The bus is a log of what the client does and a script of what it is answered, so that every way of
 failing is one script.
 */
module SecretService {
  import opened Wrappers
  import opened Errors
  import opened Contexts

  type Path = string

  const COLLECTION: Path := "/org/freedesktop/secrets/aliases/default"
  const NO_PROMPT: Path := "/"

  /** How waiting for a prompt ends. */
  datatype Outcome = Accepted | Dismissed | Malformed | ChannelClosed | ContextDone

  datatype Event =
    | Connect(ok: bool)
    | Disconnect
    | Unlock(target: Path, prompt: Option<Path>)
    | Search(service: string, key: string, found: bool)
    | OpenSession(session: Option<Path>)
    | CloseSession(closing: Path)
    | ReadSecret(item: Path, using: Path)
    | CreateItem(carrying: Path, service: string, key: string, value: Bytes, prompt: Option<Path>)
    | DeleteItem(item: Path, prompt: Option<Path>)
    | Watch
    | Unwatch
    | AddMatch(rule: Path, accepted: bool)
    | RemoveMatch(rule: Path)
    | Show(shown: Path)
    | Completed(shown: Path, outcome: Outcome)

  /**
   What one call is answered: an error with the name the bus gives it, or the values the call
   returns; and what the context says when it is looked at afterwards.
   */
  datatype Answer = Answer(
    err: Option<Error>,
    busName: string,
    path: Path,
    items: seq<Path>,
    secret: Bytes,
    outcome: Outcome,
    context: Context)
  {
    function Returned(): Option<Path> {
      if err.None? then Some(path) else None
    }
  }

  class Bus {
    const script: nat -> Answer
    var log: seq<Event>

    constructor (script: nat -> Answer)
      ensures this.script == script && log == []
    {
      this.script, log := script, [];
    }

    /** The answer to the next call. */
    function Next(): Answer
      reads this
    {
      script(|log|)
    }

    method Send(event: Event)
      modifies this
      ensures log == old(log) + [event]
    {
      log := log + [event];
    }
  }

  // ---- Errors ----

  /** One of the ten categories that are passed on; refusing an insecure fallback is not among them. */
  predicate HasCategory(err: Error) {
    exists category: Category :: category != InsecureFallback && IsCategory(err, category)
  }

  function BusCategory(name: string): Category {
    if name == "org.freedesktop.DBus.Error.ServiceUnknown" || name == "org.freedesktop.DBus.Error.NameHasNoOwner" then BackendUnavailable
    else if name == "org.freedesktop.DBus.Error.AccessDenied" || name == "org.freedesktop.DBus.Error.AuthFailed" then PermissionDenied
    else if name == "org.freedesktop.DBus.Error.NoReply" || name == "org.freedesktop.DBus.Error.Timeout" then Timeout
    else if name == "org.freedesktop.Secret.Error.IsLocked" then BackendLocked
    else if name == "org.freedesktop.Secret.Error.NoSuchObject" then NotFound
    else if name == "org.freedesktop.DBus.Error.InteractiveAuthorizationRequired" then InteractionRequired
    else if name == "org.freedesktop.DBus.Error.LimitsExceeded" then ValueTooLarge
    else BackendFailure
  }

  function BackendError(context: Context, busName: string, err: Error): Error {
    match ContextError(context)
    case Some(ended) => ended
    case None => if HasCategory(err) then Annotate(err) else Tag(BusCategory(busName), err)
  }

  /** `errors.Join(result, err)`. */
  function JoinInto(result: Option<Error>, err: Error): Error {
    match result
    case None => Many(0, [err])
    case Some(first) => Many(0, [first, err])
  }

  predicate Interrupted(result: Option<Error>) {
    result.Some? && (Is(result.value, Std(Canceled)) || Is(result.value, Std(DeadlineExceeded)))
  }

  /** Every backend error is the cancellation or carries a portable category. */
  lemma BackendErrorIsClassified(context: Context, busName: string, err: Error)
    ensures BackendError(context, busName, err) == Std(Canceled) || HasCategory(BackendError(context, busName, err))
  {
    hide Is;
    match context {
      case Cancelled =>
      case Nil => AnnotateMatches(Portable(InvalidArgument), InvalidArgument);
      case Expired => TagMatches(Timeout, Std(DeadlineExceeded));
      case Live =>
        if HasCategory(err) {
          var category :| category != InsecureFallback && IsCategory(err, category);
          AnnotateMatches(err, category);
        } else {
          TagMatches(BusCategory(busName), err);
        }
    }
  }

  lemma AnnotateMatches(err: Error, category: Category)
    ensures IsCategory(err, category) ==> IsCategory(Annotate(err), category)
    ensures err == Portable(category) ==> IsCategory(Annotate(err), category)
  {
  }

  lemma TagMatches(category: Category, err: Error)
    ensures IsCategory(Tag(category, err), category)
  {
    TagIs(category, err, category);
  }

  lemma JoinKeeps(result: Option<Error>, err: Error)
    ensures Interrupted(result) ==> Interrupted(Some(JoinInto(result, err)))
  {
    if result.Some? {
      var joined := Many(0, [result.value, err]);
      assert joined.causes[0] == result.value;
      assert Is(result.value, Std(Canceled)) ==> Is(joined, Std(Canceled));
      assert Is(result.value, Std(DeadlineExceeded)) ==> Is(joined, Std(DeadlineExceeded));
    }
  }

  /** A failure says what kind it is, unless it is the caller's own cancellation. */
  predicate Reported(failure: Option<Error>) {
    failure.Some? ==> Is(failure.value, Std(Canceled)) || HasCategory(failure.value)
  }

  lemma BackendReported(context: Context, busName: string, err: Error)
    ensures Reported(Some(BackendError(context, busName, err)))
  {
    BackendErrorIsClassified(context, busName, err);
  }

  lemma ContextReported(context: Context)
    ensures Reported(ContextError(context))
  {
    BackendErrorIsClassified(context, "", Std(Canceled));
  }

  lemma FaultReported(category: Category)
    requires category != InsecureFallback
    ensures Reported(Some(Fault(category)))
  {
    AnnotateMatches(Portable(category), category);
  }

  lemma TagReported(err: Error)
    ensures Reported(Some(Tag(BackendFailure, err)))
  {
    TagMatches(BackendFailure, err);
  }

  lemma NothingReported()
    ensures Reported(None)
  {
  }

  lemma JoinReported(result: Option<Error>, err: Error)
    requires Reported(Some(err))
    ensures Reported(Some(JoinInto(result, err)))
  {
    hide Is;
    var joined := JoinInto(result, err);
    if Is(err, Std(Canceled)) {
      JoinedIs(result, err, Std(Canceled));
    } else {
      var category :| category != InsecureFallback && IsCategory(err, category);
      JoinedIs(result, err, Portable(category));
      assert IsCategory(joined, category);
    }
  }

  lemma JoinedIs(result: Option<Error>, err: Error, target: Error)
    requires Is(err, target)
    ensures Is(JoinInto(result, err), target)
  {
    var joined := JoinInto(result, err);
    assert joined.causes[|joined.causes| - 1] == err;
  }

  // ---- What the answers of a run say ----

  /** What an error is compared with: one of the categories or a sentinel of the standard library. */
  predicate Leaf(target: Error) {
    target.Portable? || target.Std?
  }

  predicate Names(failure: Option<Error>, target: Error) {
    failure.Some? && Is(failure.value, target)
  }

  /** What the bus calls an error of each category. */
  predicate Named(name: string, category: Category) {
    match category
    case NotFound => name == "org.freedesktop.Secret.Error.NoSuchObject"
    case ValueTooLarge => name == "org.freedesktop.DBus.Error.LimitsExceeded"
    case BackendUnavailable =>
      name == "org.freedesktop.DBus.Error.ServiceUnknown" || name == "org.freedesktop.DBus.Error.NameHasNoOwner"
    case BackendLocked => name == "org.freedesktop.Secret.Error.IsLocked"
    case InteractionRequired => name == "org.freedesktop.DBus.Error.InteractiveAuthorizationRequired"
    case PermissionDenied =>
      name == "org.freedesktop.DBus.Error.AccessDenied" || name == "org.freedesktop.DBus.Error.AuthFailed"
    case Timeout => name == "org.freedesktop.DBus.Error.NoReply" || name == "org.freedesktop.DBus.Error.Timeout"
    case BackendFailure =>
      && name != "org.freedesktop.Secret.Error.NoSuchObject" && name != "org.freedesktop.DBus.Error.LimitsExceeded"
      && name != "org.freedesktop.DBus.Error.ServiceUnknown" && name != "org.freedesktop.DBus.Error.NameHasNoOwner"
      && name != "org.freedesktop.Secret.Error.IsLocked"
      && name != "org.freedesktop.DBus.Error.InteractiveAuthorizationRequired"
      && name != "org.freedesktop.DBus.Error.AccessDenied" && name != "org.freedesktop.DBus.Error.AuthFailed"
      && name != "org.freedesktop.DBus.Error.NoReply" && name != "org.freedesktop.DBus.Error.Timeout"
    case InvalidArgument => false
    case InsecureFallback => false
    case Unsupported => false
  }

  /** What a context that has ended makes an error match. */
  predicate EndsAs(context: Context, target: Error) {
    match context
    case Live => false
    case Nil => target == Portable(InvalidArgument)
    case Cancelled => target == Std(Canceled)
    case Expired => target == Portable(Timeout) || target == Std(DeadlineExceeded)
  }

  /** A call that fails says that the context has ended, or its own category, or else that of its bus name. */
  ghost predicate CallSays(answer: Answer, target: Error)
    requires answer.err.Some?
  {
    if answer.context != Live then
      EndsAs(answer.context, target)
    else
      || Is(answer.err.value, target)
      || (&& target.Portable? && Named(answer.busName, target.category)
          && forall category | IsCategory(answer.err.value, category) :: category == InsecureFallback)
  }

  /** The call did not go as the operation wants it. The results of giving signals back are discarded. */
  predicate Fails(event: Event, answer: Answer) {
    match event
    case Completed(_, _) => answer.outcome != Accepted
    case Search(_, _, _) => answer.err.Some? || answer.items == []
    case Watch => false
    case Unwatch => false
    case RemoveMatch(_) => false
    case _ => answer.err.Some?
  }

  function Refusal<T>(result: Result<T, Error>): Option<Error> {
    if result.Failure? then Some(result.error) else None
  }

  /** What such a call says to the caller. */
  ghost predicate Says(event: Event, answer: Answer, target: Error) {
    Fails(event, answer) &&
    match event
    case Completed(_, _) =>
      (match answer.outcome
       case Accepted => false
       case Dismissed => target == Portable(InteractionRequired)
       case Malformed => target == Portable(BackendFailure)
       case _ => if answer.context == Live then target == Portable(BackendFailure) else EndsAs(answer.context, target))
    case Search(_, _, _) => if answer.err.Some? then CallSays(answer, target) else target == Portable(NotFound)
    case Disconnect => target == Portable(BackendFailure) || Is(answer.err.value, target)
    case _ => CallSays(answer, target)
  }

  ghost predicate Failing(run: seq<Event>, script: nat -> Answer, start: nat) {
    exists i | 0 <= i < |run| :: Fails(run[i], script(start + i))
  }

  ghost predicate Said(run: seq<Event>, script: nat -> Answer, start: nat, target: Error) {
    exists i | 0 <= i < |run| :: Says(run[i], script(start + i), target)
  }

  /**
   An operation whose calls are answered from `start` on fails exactly when one of its calls does, and
   its error matches what the failing calls say and nothing else.
   */
  ghost predicate Accounted(failure: Option<Error>, run: seq<Event>, script: nat -> Answer, start: nat) {
    && (failure.Some? <==> Failing(run, script, start))
    && forall target: Error | Leaf(target) :: Names(failure, target) <==> Said(run, script, start, target)
  }

  lemma FailingAppend(a: seq<Event>, b: seq<Event>, script: nat -> Answer, start: nat)
    ensures Failing(a + b, script, start) <==> Failing(a, script, start) || Failing(b, script, start + |a|)
  {
    hide Fails;
    if Failing(a, script, start) {
      var i :| 0 <= i < |a| && Fails(a[i], script(start + i));
      assert (a + b)[i] == a[i];
    }
    if Failing(b, script, start + |a|) {
      var i :| 0 <= i < |b| && Fails(b[i], script(start + |a| + i));
      assert (a + b)[|a| + i] == b[i];
      assert Fails((a + b)[|a| + i], script(start + (|a| + i)));
    }
    if Failing(a + b, script, start) {
      var i :| 0 <= i < |a + b| && Fails((a + b)[i], script(start + i));
      if i >= |a| {
        assert Fails(b[i - |a|], script(start + |a| + (i - |a|)));
      } else {
        assert Fails(a[i], script(start + i));
      }
    }
  }

  lemma SaidAppend(a: seq<Event>, b: seq<Event>, script: nat -> Answer, start: nat, target: Error)
    ensures Said(a + b, script, start, target) <==> Said(a, script, start, target) || Said(b, script, start + |a|, target)
  {
    hide Says;
    if Said(a, script, start, target) {
      var i :| 0 <= i < |a| && Says(a[i], script(start + i), target);
      assert (a + b)[i] == a[i];
    }
    if Said(b, script, start + |a|, target) {
      var i :| 0 <= i < |b| && Says(b[i], script(start + |a| + i), target);
      assert (a + b)[|a| + i] == b[i];
      assert Says((a + b)[|a| + i], script(start + (|a| + i)), target);
    }
    if Said(a + b, script, start, target) {
      var i :| 0 <= i < |a + b| && Says((a + b)[i], script(start + i), target);
      if i >= |a| {
        assert Says(b[i - |a|], script(start + |a| + (i - |a|)), target);
      } else {
        assert Says(a[i], script(start + i), target);
      }
    }
  }

  /** One part of a run after another, of which at most one fails. */
  lemma AccountedAppend(first: Option<Error>, a: seq<Event>, second: Option<Error>, b: seq<Event>, script: nat -> Answer, start: nat)
    requires Accounted(first, a, script, start) && Accounted(second, b, script, start + |a|)
    requires first.None? || second.None?
    ensures Accounted(if first.Some? then first else second, a + b, script, start)
  {
    hide Failing, Said, Is;
    FailingAppend(a, b, script, start);
    forall target: Error | Leaf(target)
      ensures Names(if first.Some? then first else second, target) <==> Said(a + b, script, start, target)
    {
      SaidAppend(a, b, script, start, target);
    }
  }

  /** A failure while giving something back is joined to the result. */
  lemma AccountedJoin(result: Option<Error>, a: seq<Event>, err: Error, b: seq<Event>, script: nat -> Answer, start: nat)
    requires Accounted(result, a, script, start) && Accounted(Some(err), b, script, start + |a|)
    ensures Accounted(Some(JoinInto(result, err)), a + b, script, start)
  {
    hide Failing, Said, Is, JoinInto;
    FailingAppend(a, b, script, start);
    forall target: Error | Leaf(target)
      ensures Names(Some(JoinInto(result, err)), target) <==> Said(a + b, script, start, target)
    {
      SaidAppend(a, b, script, start, target);
      JoinNames(result, err, target);
    }
  }

  lemma JoinNames(result: Option<Error>, err: Error, target: Error)
    requires Leaf(target)
    ensures Is(JoinInto(result, err), target) <==> Names(result, target) || Is(err, target)
  {
    var joined := JoinInto(result, err);
    if Is(joined, target) {
      var i :| 0 <= i < |joined.causes| && Is(joined.causes[i], target);
      assert joined.causes[i] == err || result == Some(joined.causes[i]);
    }
    assert joined.causes[|joined.causes| - 1] == err;
    assert result.Some? ==> joined.causes[0] == result.value;
  }

  lemma AccountedNothing(script: nat -> Answer, start: nat)
    ensures Accounted(None, [], script, start)
  {
  }

  lemma AccountedOne(failure: Option<Error>, event: Event, script: nat -> Answer, start: nat)
    requires failure.Some? <==> Fails(event, script(start))
    requires failure.Some? ==> forall target: Error | Leaf(target) :: Is(failure.value, target) <==> Says(event, script(start), target)
    ensures Accounted(failure, [event], script, start)
  {
    hide Fails, Is, CallSays;
    assert [event][0] == event && start + 0 == start;
    assert Failing([event], script, start) <==> Fails(event, script(start));
    forall target: Error | Leaf(target)
      ensures Names(failure, target) <==> Said([event], script, start, target)
    {
      hide Says;
      assert Said([event], script, start, target) <==> Says(event, script(start), target);
      assert failure.None? ==> !Says(event, script(start), target) by {
        SaysFails(event, script(start), target);
      }
    }
  }

  lemma SaysFails(event: Event, answer: Answer, target: Error)
    ensures Says(event, answer, target) ==> Fails(event, answer)
  {
    hide Fails;
  }

  lemma AccountedQuiet(event: Event, script: nat -> Answer, start: nat)
    requires !Fails(event, script(start))
    ensures Accounted(None, [event], script, start)
  {
    hide Fails, Says;
    AccountedOne(None, event, script, start);
  }

  /** An event that is one call whose error the operation looks at. */
  predicate IsCall(event: Event) {
    !event.Watch? && !event.Unwatch? && !event.RemoveMatch? && !event.Completed? && !event.Disconnect?
  }

  lemma CallFails(event: Event, answer: Answer, target: Error)
    requires IsCall(event) && answer.err.Some?
    ensures Fails(event, answer)
    ensures Says(event, answer, target) <==> CallSays(answer, target)
  {
    hide CallSays;
  }

  lemma AccountedCall(event: Event, script: nat -> Answer, start: nat)
    requires IsCall(event) && script(start).err.Some?
    ensures var answer := script(start);
            Accounted(Some(BackendError(answer.context, answer.busName, answer.err.value)), [event], script, start)
  {
    hide Fails, Says, Is, BackendError, IsCall, CallSays, Accounted;
    var answer := script(start);
    var err := BackendError(answer.context, answer.busName, answer.err.value);
    CallFails(event, answer, err);
    forall target: Error | Leaf(target)
      ensures Is(err, target) <==> Says(event, answer, target)
    {
      CallFails(event, answer, target);
      CallErrorSays(answer, target);
    }
    AccountedOne(Some(err), event, script, start);
  }

  lemma CallErrorSays(answer: Answer, target: Error)
    requires answer.err.Some? && Leaf(target)
    ensures Is(BackendError(answer.context, answer.busName, answer.err.value), target) <==> CallSays(answer, target)
  {
    hide Is, Named, BusCategory;
    var err := answer.err.value;
    if answer.context != Live {
      ContextSays(answer.context, target);
    } else if HasCategory(err) {
      AnnotateIs(err, target);
    } else {
      TaggedIs(BusCategory(answer.busName), err, target);
      NamedExactly(answer.busName);
    }
  }

  lemma ContextSays(context: Context, target: Error)
    requires Leaf(target) && context != Live
    ensures Is(ContextError(context).value, target) <==> EndsAs(context, target)
  {
    LeafIs(InvalidArgument, target);
    LeafIs(Timeout, target);
  }

  lemma LeafIs(category: Category, target: Error)
    ensures Is(Portable(category), target) <==> target == Portable(category)
    ensures Leaf(target) ==> (Is(Fault(category), target) <==> target == Portable(category))
  {
  }

  lemma AnnotateIs(err: Error, target: Error)
    requires Leaf(target)
    ensures Is(Annotate(err), target) <==> Is(err, target)
  {
  }

  lemma TaggedIs(category: Category, err: Error, target: Error)
    requires Leaf(target)
    ensures Is(Tag(category, err), target) <==> target == Portable(category) || Is(err, target)
  {
    LeafIs(category, target);
  }

  lemma NamedExactly(name: string)
    ensures forall category: Category :: Named(name, category) <==> category == BusCategory(name)
  {
    forall category: Category
      ensures Named(name, category) <==> category == BusCategory(name)
    {
      if category == BusCategory(name) {
        BusNames(name);
      }
      if Named(name, category) {
        NamesBus(name, category);
      }
    }
  }

  lemma BusNames(name: string)
    ensures Named(name, BusCategory(name))
  {
  }

  /** Names of different categories differ in length, or in one of two letters. */
  lemma NamesBus(name: string, category: Category)
    requires Named(name, category)
    ensures BusCategory(name) == category
  {
    hide BusCategory;
    match category {
      case InteractionRequired => LongName(name);
      case NotFound => NamesOf41(name, category);
      case ValueTooLarge => NamesOf41(name, category);
      case BackendUnavailable => NamesOf41(name, category);
      case BackendFailure => UnknownName(name);
      case _ => ShortNames(name, category);
    }
  }

  lemma LongName(name: string)
    requires Named(name, InteractionRequired)
    ensures BusCategory(name) == InteractionRequired
  {
    assert |name| == 59;
  }

  lemma UnknownName(name: string)
    requires Named(name, BackendFailure)
    ensures BusCategory(name) == BackendFailure
  {
  }

  lemma NamesOf41(name: string, category: Category)
    requires category == NotFound || category == ValueTooLarge || category == BackendUnavailable
    requires Named(name, category)
    ensures BusCategory(name) == category
  {
    assert |name| == 41;
    match category {
      case NotFound => assert name[16] == 'S';
      case ValueTooLarge => assert name[16] == 'D' && name[27] == 'L';
      case BackendUnavailable => assert name[16] == 'D';
    }
  }

  lemma ShortNames(name: string, category: Category)
    requires category == BackendLocked || category == PermissionDenied || category == Timeout
    requires Named(name, category)
    ensures BusCategory(name) == category
  {
    match category {
      case BackendLocked => assert |name| == 37 && name[16] == 'S';
      case PermissionDenied => assert |name| == 39 || (|name| == 37 && name[16] == 'D');
      case Timeout => assert |name| == 34;
    }
  }

  lemma AccountedFault(category: Category, event: Event, script: nat -> Answer, start: nat)
    requires Fails(event, script(start))
    requires forall target: Error | Leaf(target) :: Says(event, script(start), target) <==> target == Portable(category)
    ensures Accounted(Some(Fault(category)), [event], script, start)
  {
    hide Fails, Says, Is;
    forall target: Error | Leaf(target)
      ensures Is(Fault(category), target) <==> Says(event, script(start), target)
    {
      LeafIs(category, target);
    }
    AccountedOne(Some(Fault(category)), event, script, start);
  }

  // ---- What the account means ----

  /**
   When one call alone fails, the operation's error is exactly what that call says. Under a live
   context an error without a category is answered with the one its bus name stands for; a
   dismissed prompt asks for interaction; an empty search is an absent credential.
   */
  lemma OnlyFailureAnswers(failure: Option<Error>, run: seq<Event>, script: nat -> Answer, start: nat, i: nat)
    requires Accounted(failure, run, script, start)
    requires i < |run| && forall j | 0 <= j < |run| :: Fails(run[j], script(start + j)) <==> j == i
    ensures failure.Some?
    ensures forall target: Error | Leaf(target) :: Is(failure.value, target) <==> Says(run[i], script(start + i), target)
    ensures var answer := script(start + i);
            && (IsCall(run[i]) && answer.err.Some? && answer.context == Live && HasNoCategory(answer.err.value) ==>
                  forall category: Category :: Named(answer.busName, category) <==> IsCategory(failure.value, category))
            && (IsCall(run[i]) && answer.err.Some? && answer.context != Live ==> EndedBy(answer.context, failure.value))
            && (run[i].Completed? && answer.outcome == Dismissed ==> Exactly(failure.value, InteractionRequired))
            && (run[i].Search? && answer.err.None? ==> Exactly(failure.value, NotFound))
  {
    hide Fails, Says, Is, Named, IsCall, CallSays, Exactly, EndedBy, HasNoCategory;
    var answer := script(start + i);
    assert Fails(run[i], answer) && failure.Some?;
    forall target: Error | Leaf(target)
      ensures Is(failure.value, target) <==> Says(run[i], answer, target)
    {
      SaidByOne(run, script, start, i, target);
      assert Names(failure, target) <==> Said(run, script, start, target);
    }
    CategoriesSaid(failure.value, run[i], answer);
  }

  lemma SaidByOne(run: seq<Event>, script: nat -> Answer, start: nat, i: nat, target: Error)
    requires i < |run| && forall j | 0 <= j < |run| :: Fails(run[j], script(start + j)) <==> j == i
    ensures Said(run, script, start, target) <==> Says(run[i], script(start + i), target)
  {
    hide Fails, Says;
    if Said(run, script, start, target) {
      var j :| 0 <= j < |run| && Says(run[j], script(start + j), target);
      SaysFails(run[j], script(start + j), target);
    }
  }

  lemma CategoriesSaid(err: Error, event: Event, answer: Answer)
    requires Fails(event, answer)
    requires forall target: Error | Leaf(target) :: Is(err, target) <==> Says(event, answer, target)
    ensures IsCall(event) && answer.err.Some? && answer.context == Live && HasNoCategory(answer.err.value) ==>
              forall category: Category :: Named(answer.busName, category) <==> IsCategory(err, category)
    ensures IsCall(event) && answer.err.Some? && answer.context != Live ==> EndedBy(answer.context, err)
    ensures event.Completed? && answer.outcome == Dismissed ==> Exactly(err, InteractionRequired)
    ensures event.Search? && answer.err.None? ==> Exactly(err, NotFound)
  {
    hide Is, Named, Says, Fails, CallSays;
    assert forall category: Category :: Leaf(Portable(category));
    assert Leaf(Std(Canceled)) && Leaf(Std(DeadlineExceeded));
    if IsCall(event) && answer.err.Some? {
      forall target: Error | Leaf(target)
        ensures Is(err, target) <==> CallSays(answer, target)
      {
        CallFails(event, answer, target);
      }
      CallCategories(err, answer);
    }
    if event.Completed? && answer.outcome == Dismissed {
      forall category: Category
        ensures IsCategory(err, category) <==> category == InteractionRequired
      {
        DismissedSays(event, answer, Portable(category));
      }
    }
    if event.Search? && answer.err.None? {
      forall category: Category
        ensures IsCategory(err, category) <==> category == NotFound
      {
        EmptySays(event, answer, Portable(category));
      }
    }
  }

  lemma CallCategories(err: Error, answer: Answer)
    requires answer.err.Some?
    requires forall target: Error | Leaf(target) :: Is(err, target) <==> CallSays(answer, target)
    ensures answer.context == Live && HasNoCategory(answer.err.value) ==>
              forall category: Category :: Named(answer.busName, category) <==> IsCategory(err, category)
    ensures answer.context != Live ==> EndedBy(answer.context, err)
  {
    hide Is, Named;
    forall category: Category
      ensures IsCategory(err, category) <==> CallSays(answer, Portable(category))
      ensures answer.context == Live && HasNoCategory(answer.err.value) ==>
                (Named(answer.busName, category) <==> IsCategory(err, category))
    {
      assert Leaf(Portable(category));
      if answer.context == Live && HasNoCategory(answer.err.value) {
        assert !IsCategory(answer.err.value, category);
      }
    }
    assert Leaf(Std(Canceled)) && Leaf(Std(DeadlineExceeded));
  }

  lemma DismissedSays(event: Event, answer: Answer, target: Error)
    requires event.Completed? && answer.outcome == Dismissed
    ensures Says(event, answer, target) <==> target == Portable(InteractionRequired)
  {
  }

  lemma EmptySays(event: Event, answer: Answer, target: Error)
    requires event.Search? && answer.err.None? && Fails(event, answer)
    ensures Says(event, answer, target) <==> target == Portable(NotFound)
  {
  }

  /** The search of an operation: the only one, for the attributes it was given. */
  predicate SearchedAt(run: seq<Event>, i: nat, service: string, key: string) {
    && i < |run| && run[i].Search? && run[i].service == service && run[i].key == key
    && forall j | 0 <= j < |run| && run[j].Search? :: j == i
  }

  /** Every search of a run is for these attributes, and there is at most one. */
  predicate SearchesOnce(run: seq<Event>, service: string, key: string) {
    && (forall i | 0 <= i < |run| && run[i].Search? :: run[i].service == service && run[i].key == key)
    && forall i, j | 0 <= i < |run| && 0 <= j < |run| && run[i].Search? && run[j].Search? :: i == j
  }

  predicate Searchless(run: seq<Event>) {
    forall i | 0 <= i < |run| :: !run[i].Search?
  }

  /** No call of the script fails and every prompt is accepted. */
  ghost predicate Obliging(script: nat -> Answer) {
    forall n: nat :: script(n).err.None? && script(n).outcome == Accepted
  }

  /** When every call is answered, the one search decides: an item was found, or the credential is exactly absent. */
  ghost predicate SearchDecides(failure: Option<Error>, run: seq<Event>, script: nat -> Answer, start: nat, service: string, key: string) {
    exists i: nat ::
      && SearchedAt(run, i, service, key)
      && if script(start + i).items != [] then failure.None? else failure.Some? && Exactly(failure.value, NotFound)
  }

  lemma ObligingDecides(failure: Option<Error>, run: seq<Event>, script: nat -> Answer, start: nat, service: string, key: string)
    requires Obliging(script) && Accounted(failure, run, script, start) && SearchesOnce(run, service, key)
    requires failure.None? ==> exists i | 0 <= i < |run| :: run[i].Search?
    ensures SearchDecides(failure, run, script, start, service, key)
  {
    hide Is, Exactly, Says, Said;
    var i :| 0 <= i < |run| && run[i].Search? && (failure.Some? ==> Fails(run[i], script(start + i)));
    assert SearchedAt(run, i, service, key);
    if script(start + i).items == [] {
      forall j | 0 <= j < |run|
        ensures Fails(run[j], script(start + j)) <==> j == i
      {
      }
      OnlyFailureAnswers(failure, run, script, start, i);
    } else if failure.Some? {
      assert false;
    }
  }

  lemma ObligingSucceeds(failure: Option<Error>, run: seq<Event>, script: nat -> Answer, start: nat)
    requires Obliging(script) && Accounted(failure, run, script, start) && Searchless(run)
    ensures failure.None?
  {
    hide Is, Said;
  }

  // ---- What a run of calls leaves behind ----

  function Count(run: seq<Event>, event: Event): nat {
    multiset(run)[event]
  }

  /** What `take` acquires `give` returns: as often in the whole run, and never ahead of it. */
  ghost predicate GivenBack(run: seq<Event>, take: Event, give: Event) {
    && Count(run, take) == Count(run, give)
    && forall n | 0 <= n <= |run| :: Count(run[..n], give) <= Count(run[..n], take)
  }

  /** Every signal registration and every accepted match rule is taken back, after it was made. */
  ghost predicate Tidy(run: seq<Event>) {
    && GivenBack(run, Watch, Unwatch)
    && forall rule: Path :: GivenBack(run, AddMatch(rule, true), RemoveMatch(rule))
  }

  lemma GivenBackAppend(a: seq<Event>, b: seq<Event>, take: Event, give: Event)
    requires GivenBack(a, take, give) && GivenBack(b, take, give)
    ensures GivenBack(a + b, take, give)
  {
    hide Count;
    CountAppend(a, b, take);
    CountAppend(a, b, give);
    forall n | 0 <= n <= |a + b|
      ensures Count((a + b)[..n], give) <= Count((a + b)[..n], take)
    {
      if n <= |a| {
        assert (a + b)[..n] == a[..n];
      } else {
        assert (a + b)[..n] == a + b[..n - |a|];
        assert a[..|a|] == a;
        CountAppend(a, b[..n - |a|], take);
        CountAppend(a, b[..n - |a|], give);
      }
    }
  }

  /** What is neither taken nor given back is in balance. */
  lemma GivenBackAbsent(run: seq<Event>, take: Event, give: Event)
    requires take !in run && give !in run
    ensures GivenBack(run, take, give)
  {
    hide Count;
    NotIn(run, take);
    NotIn(run, give);
    forall n | 0 <= n <= |run|
      ensures Count(run[..n], give) <= Count(run[..n], take)
    {
      NotIn(run[..n], give);
    }
  }

  /** Giving back at the end what was taken once. */
  lemma GivenBackLast(run: seq<Event>, take: Event, give: Event)
    requires Count(run, take) == 1 && give !in run && take != give
    ensures GivenBack(run + [give], take, give)
  {
    hide Count;
    CountAppend(run, [give], take);
    CountAppend(run, [give], give);
    CountOne(give, take);
    CountOne(give, give);
    NotIn(run, give);
    forall n | 0 <= n <= |run + [give]|
      ensures Count((run + [give])[..n], give) <= Count((run + [give])[..n], take)
    {
      if n <= |run| {
        assert (run + [give])[..n] == run[..n];
        NotIn(run[..n], give);
      } else {
        assert (run + [give])[..n] == run + [give];
      }
    }
  }

  lemma GivenBackAround(take: Event, middle: seq<Event>, give: Event)
    requires GivenBack(middle, take, give) && take != give
    ensures GivenBack([take] + middle + [give], take, give)
  {
    hide Count;
    var run := [take] + middle + [give];
    CountAround(take, middle, give, take);
    CountAround(take, middle, give, give);
    forall n | 0 <= n <= |run|
      ensures Count(run[..n], give) <= Count(run[..n], take)
    {
      if n == 0 {
        NotIn(run[..0], give);
      } else if n <= |middle| + 1 {
        assert run[..n] == [take] + middle[..n - 1];
        CountAppend([take], middle[..n - 1], take);
        CountAppend([take], middle[..n - 1], give);
        CountOne(take, take);
        CountOne(take, give);
      } else {
        assert run[..n] == run;
      }
    }
  }

  lemma CountAround(first: Event, middle: seq<Event>, last: Event, event: Event)
    ensures Count([first] + middle + [last], event)
         == Count(middle, event) + (if event == first then 1 else 0) + (if event == last then 1 else 0)
  {
    CountAppend([first] + middle, [last], event);
    CountAppend([first], middle, event);
    CountOne(first, event);
    CountOne(last, event);
  }

  /** Events that are neither taking nor giving back may stand around. */
  lemma GivenBackBetween(first: Event, middle: seq<Event>, last: Event, take: Event, give: Event)
    requires GivenBack(middle, take, give)
    requires first != take && first != give && last != take && last != give
    ensures GivenBack([first] + middle + [last], take, give)
  {
    hide GivenBack;
    GivenBackAbsent([first], take, give);
    GivenBackAbsent([last], take, give);
    GivenBackAppend([first], middle, take, give);
    GivenBackAppend([first] + middle, [last], take, give);
  }

  /** Nothing is given back before it was taken. */
  lemma GivenAfterTaken(run: seq<Event>, take: Event, give: Event, i: nat)
    requires GivenBack(run, take, give)
    requires i < |run| && run[i] == give && take != give
    ensures take in run[..i]
  {
    var upTo := run[..i + 1];
    assert upTo == run[..i] + [give];
    CountAppend(run[..i], [give], give);
    CountAppend(run[..i], [give], take);
    CountOne(give, give);
    CountOne(give, take);
    assert Count(upTo, give) <= Count(upTo, take);
    assert Count(run[..i], take) > 0;
  }

  lemma NotIn(run: seq<Event>, event: Event)
    requires event !in run
    ensures Count(run, event) == 0
  {
  }

  /** Nothing about connections or sessions. */
  predicate Neutral(event: Event) {
    !event.Connect? && !event.Disconnect? && !event.OpenSession? && !event.CloseSession?
  }

  predicate AllNeutral(run: seq<Event>) {
    forall i | 0 <= i < |run| :: Neutral(run[i])
  }

  /** The object was unlocked: at once, or by a prompt that was completed and not dismissed. */
  predicate Unlocked(run: seq<Event>, target: Path) {
    || Unlock(target, Some(NO_PROMPT)) in run
    || exists i, j | 0 <= i < j < |run| ::
         && run[i].Unlock? && run[i].target == target && run[i].prompt.Some?
         && run[j] == Completed(run[i].prompt.value, Accepted)
  }

  /** An event is guarded when what it touches was unlocked before it. */
  predicate Guarded(before: seq<Event>, event: Event) {
    match event
    case ReadSecret(item, using) => Unlocked(before, COLLECTION) && Unlocked(before, item) && OpenSession(Some(using)) in before
    case DeleteItem(item, _) => Unlocked(before, COLLECTION) && Unlocked(before, item)
    case CreateItem(carrying, _, _, _, _) => Unlocked(before, COLLECTION) && OpenSession(Some(carrying)) in before
    case _ => true
  }

  predicate AllGuarded(run: seq<Event>) {
    forall i | 0 <= i < |run| :: Guarded(run[..i], run[i])
  }

  /** Nothing that needs a guard. */
  predicate Harmless(run: seq<Event>) {
    forall i | 0 <= i < |run| :: !run[i].ReadSecret? && !run[i].DeleteItem? && !run[i].CreateItem?
  }

  lemma TidyAppend(a: seq<Event>, b: seq<Event>)
    requires Tidy(a) && Tidy(b)
    ensures Tidy(a + b)
  {
    hide GivenBack;
    GivenBackAppend(a, b, Watch, Unwatch);
    forall rule: Path
      ensures GivenBack(a + b, AddMatch(rule, true), RemoveMatch(rule))
    {
      GivenBackAppend(a, b, AddMatch(rule, true), RemoveMatch(rule));
    }
  }

  lemma CountAppend(a: seq<Event>, b: seq<Event>, event: Event)
    ensures Count(a + b, event) == Count(a, event) + Count(b, event)
  {
  }

  lemma CountOne(event: Event, other: Event)
    ensures Count([event], other) == if event == other then 1 else 0
    ensures Count([], other) == 0
  {
  }

  lemma UnlockedMore(before: seq<Event>, after: seq<Event>, target: Path)
    requires Unlocked(before, target)
    ensures Unlocked(before + after, target) && Unlocked(after + before, target)
  {
    if Unlock(target, Some(NO_PROMPT)) !in before {
      var i, j :| 0 <= i < j < |before|
                  && before[i].Unlock? && before[i].target == target && before[i].prompt.Some?
                  && before[j] == Completed(before[i].prompt.value, Accepted);
      assert (before + after)[i] == before[i] && (before + after)[j] == before[j];
      assert (after + before)[|after| + i] == before[i] && (after + before)[|after| + j] == before[j];
    }
  }

  lemma GuardedAppend(a: seq<Event>, b: seq<Event>)
    requires AllGuarded(a) && Harmless(b)
    ensures AllGuarded(a + b)
  {
    forall i | 0 <= i < |a + b|
      ensures Guarded((a + b)[..i], (a + b)[i])
    {
      if i < |a| {
        assert (a + b)[..i] == a[..i];
      }
    }
  }

  lemma GuardedSnoc(a: seq<Event>, event: Event)
    requires AllGuarded(a) && Guarded(a, event)
    ensures AllGuarded(a + [event])
  {
    forall i | 0 <= i < |a + [event]|
      ensures Guarded((a + [event])[..i], (a + [event])[i])
    {
      if i < |a| {
        assert (a + [event])[..i] == a[..i];
      } else {
        assert (a + [event])[..i] == a;
      }
    }
  }

  // ---- Calls ----

  /** A run that keeps to prompts and calls: balanced, without connection, session or secret events. */
  ghost predicate Plain(run: seq<Event>) {
    Tidy(run) && AllNeutral(run) && Harmless(run)
  }

  lemma PlainOne(event: Event)
    requires event.Unlock? || event.Search? || event.Show? || event.Completed? || (event.AddMatch? && !event.accepted)
    ensures Plain([event])
  {
    hide Tidy;
    TidyAbsent([event]);
  }

  lemma PlainNothing()
    ensures Plain([])
  {
    hide Tidy;
    TidyAbsent([]);
  }

  /** A run without registrations is tidy. */
  lemma TidyAbsent(run: seq<Event>)
    requires forall i | 0 <= i < |run| ::
               && !run[i].Watch? && !run[i].Unwatch? && !run[i].RemoveMatch?
               && (run[i].AddMatch? ==> !run[i].accepted)
    ensures Tidy(run)
  {
    hide GivenBack;
    GivenBackAbsent(run, Watch, Unwatch);
    forall rule: Path
      ensures GivenBack(run, AddMatch(rule, true), RemoveMatch(rule))
    {
      GivenBackAbsent(run, AddMatch(rule, true), RemoveMatch(rule));
    }
  }

  lemma PlainAppend(a: seq<Event>, b: seq<Event>)
    requires Plain(a) && Plain(b)
    ensures Plain(a + b)
  {
    hide Tidy;
    TidyAppend(a, b);
  }

  /** Registering for a signal or a match, whatever happens meanwhile, and taking it back. */
  lemma PlainBracket(before: Event, middle: seq<Event>, after: Event)
    requires Plain(middle)
    requires (before == Watch && after == Unwatch) || (before.AddMatch? && before.accepted && after == RemoveMatch(before.rule))
    ensures Plain([before] + middle + [after])
  {
    hide GivenBack;
    if before == Watch {
      GivenBackAround(before, middle, after);
    } else {
      GivenBackBetween(before, middle, after, Watch, Unwatch);
    }
    forall rule: Path
      ensures GivenBack([before] + middle + [after], AddMatch(rule, true), RemoveMatch(rule))
    {
      if before == AddMatch(rule, true) {
        GivenBackAround(before, middle, after);
      } else {
        GivenBackBetween(before, middle, after, AddMatch(rule, true), RemoveMatch(rule));
      }
    }
  }

  function PromptChannelError(context: Context): Error {
    match ContextError(context)
    case Some(ended) => ended
    case None => Fault(BackendFailure)
  }

  /** How a prompt that was shown ends for the caller; a context is done only when it is no longer live. */
  function OutcomeError(outcome: Outcome, context: Context): Option<Error> {
    match outcome
    case Accepted => None
    case Dismissed => Some(Fault(InteractionRequired))
    case Malformed => Some(Fault(BackendFailure))
    case ChannelClosed => Some(PromptChannelError(context))
    case ContextDone => Some(PromptChannelError(context))
  }

  lemma AccountedOutcome(prompt: Path, script: nat -> Answer, start: nat)
    ensures Accounted(OutcomeError(script(start).outcome, script(start).context),
                      [Completed(prompt, script(start).outcome)], script, start)
  {
    hide Is, Accounted;
    var answer, event := script(start), Completed(prompt, script(start).outcome);
    var failure := OutcomeError(answer.outcome, answer.context);
    assert failure.Some? <==> Fails(event, answer);
    forall target: Error | Leaf(target)
      ensures failure.Some? ==> (Is(failure.value, target) <==> Says(event, answer, target))
    {
      LeafIs(InteractionRequired, target);
      LeafIs(BackendFailure, target);
      if answer.context != Live {
        ContextSays(answer.context, target);
      }
    }
    AccountedOne(failure, event, script, start);
  }

  lemma OutcomeReported(outcome: Outcome, context: Context)
    ensures Reported(OutcomeError(outcome, context))
  {
    FaultReported(InteractionRequired);
    FaultReported(BackendFailure);
    ContextReported(context);
  }

  /** The part of `handlePrompt` that holds a match rule. */
  method ShowPrompt(bus: Bus, prompt: Path) returns (failure: Option<Error>, ghost run: seq<Event>)
    modifies bus
    ensures bus.log == old(bus.log) + run && Plain(run) && Searchless(run)
    ensures failure.None? ==> Completed(prompt, Accepted) in run
    ensures Reported(failure)
    ensures Accounted(failure, run, bus.script, |old(bus.log)|)
  {
    hide Plain, Reported, Accounted, BackendError, OutcomeError;
    ghost var start, script := |bus.log|, bus.script;
    var subscribed := bus.Next();
    var subscribing := AddMatch(prompt, subscribed.err.None?);
    bus.Send(subscribing);
    if subscribed.err.Some? {
      run := [subscribing];
      PlainOne(subscribing);
      BackendReported(subscribed.context, subscribed.busName, subscribed.err.value);
      AccountedCall(subscribing, script, start);
      return Some(BackendError(subscribed.context, subscribed.busName, subscribed.err.value)), run;
    }
    AccountedQuiet(subscribing, script, start);
    var shown := bus.Next();
    bus.Send(Show(prompt));
    PlainOne(Show(prompt));
    run := [subscribing] + [Show(prompt)];
    if shown.err.Some? {
      bus.Send(RemoveMatch(prompt));
      PlainBracket(subscribing, [Show(prompt)], RemoveMatch(prompt));
      BackendReported(shown.context, shown.busName, shown.err.value);
      failure := Some(BackendError(shown.context, shown.busName, shown.err.value));
      AccountedCall(Show(prompt), script, start + 1);
      AccountedAppend(None, [subscribing], failure, [Show(prompt)], script, start);
      AccountedQuiet(RemoveMatch(prompt), script, start + 2);
      AccountedAppend(failure, run, None, [RemoveMatch(prompt)], script, start);
      return failure, run + [RemoveMatch(prompt)];
    }
    AccountedQuiet(Show(prompt), script, start + 1);
    AccountedAppend(None, [subscribing], None, [Show(prompt)], script, start);
    var completed := bus.Next();
    var completion := Completed(prompt, completed.outcome);
    bus.Send(completion);
    bus.Send(RemoveMatch(prompt));
    PlainOne(completion);
    PlainAppend([Show(prompt)], [completion]);
    PlainBracket(subscribing, [Show(prompt)] + [completion], RemoveMatch(prompt));
    OutcomeReported(completed.outcome, completed.context);
    failure := OutcomeError(completed.outcome, completed.context);
    assert failure.None? ==> completed.outcome == Accepted by {
      OutcomeAccepted(completed.outcome, completed.context);
    }
    AccountedOutcome(prompt, script, start + 2);
    AccountedAppend(None, run, failure, [completion], script, start);
    AccountedQuiet(RemoveMatch(prompt), script, start + 3);
    AccountedAppend(failure, run + [completion], None, [RemoveMatch(prompt)], script, start);
    assert run + [completion] + [RemoveMatch(prompt)] == [subscribing] + ([Show(prompt)] + [completion]) + [RemoveMatch(prompt)];
    run := run + [completion] + [RemoveMatch(prompt)];
    assert run[2] == completion;
  }

  lemma OutcomeAccepted(outcome: Outcome, context: Context)
    ensures OutcomeError(outcome, context).None? ==> outcome == Accepted
  {
  }

  /** `handlePrompt`: succeeds only without a prompt or with one completed and not dismissed, and cleans up always. */
  method HandlePrompt(bus: Bus, prompt: Path) returns (failure: Option<Error>, ghost run: seq<Event>)
    modifies bus
    ensures bus.log == old(bus.log) + run && Plain(run) && Searchless(run)
    ensures failure.None? ==> prompt == NO_PROMPT || Completed(prompt, Accepted) in run
    ensures Reported(failure)
    ensures Accounted(failure, run, bus.script, |old(bus.log)|)
  {
    hide Plain, Reported, Accounted;
    ghost var start, script := |bus.log|, bus.script;
    if prompt == NO_PROMPT {
      PlainNothing();
      NothingReported();
      AccountedNothing(script, start);
      return None, [];
    }
    bus.Send(Watch);
    ghost var middle;
    failure, middle := ShowPrompt(bus, prompt);
    bus.Send(Unwatch);
    PlainBracket(Watch, middle, Unwatch);
    run := [Watch] + middle + [Unwatch];
    AccountedQuiet(Watch, script, start);
    AccountedAppend(None, [Watch], failure, middle, script, start);
    AccountedQuiet(Unwatch, script, start + |[Watch] + middle|);
    AccountedAppend(failure, [Watch] + middle, None, [Unwatch], script, start);
    if failure.None? {
      ghost var j :| 0 <= j < |middle| && middle[j] == Completed(prompt, Accepted);
      assert run[j + 1] == Completed(prompt, Accepted);
    }
  }

  method UnlockObject(bus: Bus, target: Path) returns (failure: Option<Error>, ghost run: seq<Event>)
    modifies bus
    ensures bus.log == old(bus.log) + run && Plain(run) && Searchless(run)
    ensures failure.None? ==> Unlocked(run, target)
    ensures Reported(failure)
    ensures Accounted(failure, run, bus.script, |old(bus.log)|)
  {
    hide Plain, Reported, Accounted, BackendError;
    ghost var start, script := |bus.log|, bus.script;
    var answer := bus.Next();
    var unlocking := Unlock(target, answer.Returned());
    bus.Send(unlocking);
    PlainOne(unlocking);
    if answer.err.Some? {
      BackendReported(answer.context, answer.busName, answer.err.value);
      AccountedCall(unlocking, script, start);
      return Some(BackendError(answer.context, answer.busName, answer.err.value)), [unlocking];
    }
    AccountedQuiet(unlocking, script, start);
    ghost var rest;
    failure, rest := HandlePrompt(bus, answer.path);
    run := [unlocking] + rest;
    PlainAppend([unlocking], rest);
    AccountedAppend(None, [unlocking], failure, rest, script, start);
    if failure.None? {
      assert run[0] == Unlock(target, Some(answer.path));
      if answer.path != NO_PROMPT {
        ghost var j :| 0 <= j < |rest| && rest[j] == Completed(answer.path, Accepted);
        assert run[j + 1] == Completed(run[0].prompt.value, Accepted);
      }
    }
  }

  /** The first item with this service and key. */
  method Find(bus: Bus, service: string, key: string) returns (result: Result<Path, Error>, ghost run: seq<Event>)
    modifies bus
    ensures bus.log == old(bus.log) + run && Plain(run)
    ensures var answer := bus.script(|old(bus.log)|);
            && run == [Search(service, key, answer.err.None? && answer.items != [])]
            && (result.Success? <==> answer.err.None? && answer.items != [])
            && (result.Success? ==> result.value == answer.items[0])
            && (answer.err.None? && answer.items == [] ==> Exactly(result.error, NotFound))
    ensures Reported(Refusal(result))
    ensures Accounted(Refusal(result), run, bus.script, |old(bus.log)|)
  {
    hide Plain, Reported, Accounted, BackendError, Exactly, Is;
    ghost var start, script := |bus.log|, bus.script;
    var answer := bus.Next();
    var found := answer.err.None? && answer.items != [];
    var search := Search(service, key, found);
    bus.Send(search);
    run := [search];
    PlainOne(search);
    if answer.err.Some? {
      BackendReported(answer.context, answer.busName, answer.err.value);
      AccountedCall(search, script, start);
      return Failure(BackendError(answer.context, answer.busName, answer.err.value)), run;
    }
    if |answer.items| == 0 {
      FaultReported(NotFound);
      FaultIsExactly(NotFound);
      AccountedFault(NotFound, search, script, start);
      return Failure(Fault(NotFound)), run;
    }
    NothingReported();
    AccountedQuiet(search, script, start);
    return Success(answer.items[0]), run;
  }

  // ---- Sessions ----

  /** A run in which at most this session is opened and none is closed. */
  ghost predicate HoldsSession(run: seq<Event>, session: Option<Path>) {
    && Tidy(run)
    && AllGuarded(run)
    && (forall i | 0 <= i < |run| :: !run[i].Connect? && !run[i].Disconnect? && !run[i].CloseSession?)
    && forall other: Path :: Count(run, OpenSession(Some(other))) == if session == Some(other) then 1 else 0
  }

  /** A run that has given its session back once it had it, unless it was interrupted. */
  ghost predicate GaveBack(run: seq<Event>, interrupted: bool) {
    && Tidy(run)
    && AllGuarded(run)
    && (forall i | 0 <= i < |run| :: !run[i].Connect? && !run[i].Disconnect?)
    && forall session: Path ::
         && Count(run, OpenSession(Some(session))) <= 1
         && if interrupted then
              Count(run, CloseSession(session)) == 0
            else
              GivenBack(run, OpenSession(Some(session)), CloseSession(session))
  }

  lemma HoldsNothing()
    ensures HoldsSession([], None)
  {
  }

  lemma HoldsMore(run: seq<Event>, session: Option<Path>, more: seq<Event>)
    requires HoldsSession(run, session) && Plain(more)
    ensures HoldsSession(run + more, session)
  {
    hide Tidy, AllGuarded, Guarded;
    TidyAppend(run, more);
    GuardedAppend(run, more);
    forall other: Path
      ensures Count(run + more, OpenSession(Some(other))) == Count(run, OpenSession(Some(other)))
    {
      CountAppend(run, more, OpenSession(Some(other)));
      NotIn(more, OpenSession(Some(other)));
    }
  }

  lemma HoldsSecret(run: seq<Event>, session: Option<Path>, event: Event)
    requires HoldsSession(run, session) && Guarded(run, event)
    requires event.ReadSecret? || event.CreateItem? || event.DeleteItem?
    ensures HoldsSession(run + [event], session)
  {
    hide Tidy, AllGuarded, Guarded;
    TidyAbsent([event]);
    TidyAppend(run, [event]);
    GuardedSnoc(run, event);
    forall other: Path
      ensures Count(run + [event], OpenSession(Some(other))) == Count(run, OpenSession(Some(other)))
    {
      CountAppend(run, [event], OpenSession(Some(other)));
      CountOne(event, OpenSession(Some(other)));
    }
  }

  lemma HoldsOpened(run: seq<Event>, session: Option<Path>)
    requires HoldsSession(run, None)
    ensures HoldsSession(run + [OpenSession(session)], session)
    ensures OpenSession(session) in run + [OpenSession(session)]
  {
    hide Tidy, AllGuarded;
    var event := OpenSession(session);
    TidyAbsent([event]);
    TidyAppend(run, [event]);
    GuardedSnoc(run, event);
    assert (run + [event])[|run|] == event;
    forall other: Path
      ensures Count(run + [event], OpenSession(Some(other))) == if session == Some(other) then 1 else 0
    {
      CountAppend(run, [event], OpenSession(Some(other)));
      CountOne(event, OpenSession(Some(other)));
    }
  }

  /** A session that is closed has been given back; without one there is nothing to close. */
  lemma GivesBack(run: seq<Event>, session: Option<Path>)
    requires HoldsSession(run, session)
    ensures session.None? ==> GaveBack(run, false) && GaveBack(run, true)
    ensures GaveBack(run, true)
    ensures session.Some? ==> GaveBack(run + [CloseSession(session.value)], false)
  {
    hide Tidy, AllGuarded, GivenBack;
    forall other: Path
      ensures Count(run, CloseSession(other)) == 0
      ensures session != Some(other) ==> GivenBack(run, OpenSession(Some(other)), CloseSession(other))
    {
      NotIn(run, CloseSession(other));
      if session != Some(other) {
        InNone(run, OpenSession(Some(other)));
        GivenBackAbsent(run, OpenSession(Some(other)), CloseSession(other));
      }
    }
    if session.Some? {
      ClosesSession(run, session.value);
    }
  }

  lemma InNone(run: seq<Event>, event: Event)
    requires Count(run, event) == 0
    ensures event !in run
  {
  }

  lemma ClosesSession(run: seq<Event>, session: Path)
    requires HoldsSession(run, Some(session))
    ensures GaveBack(run + [CloseSession(session)], false)
  {
    hide Tidy, AllGuarded, GivenBack, Count;
    var event := CloseSession(session);
    TidyAbsent([event]);
    TidyAppend(run, [event]);
    GuardedSnoc(run, event);
    forall other: Path
      ensures Count(run + [event], OpenSession(Some(other))) == Count(run, OpenSession(Some(other)))
      ensures GivenBack(run + [event], OpenSession(Some(other)), CloseSession(other))
    {
      CountAppend(run, [event], OpenSession(Some(other)));
      CountOne(event, OpenSession(Some(other)));
      if other == session {
        GivenBackLast(run, OpenSession(Some(other)), event);
      } else {
        InNone(run, OpenSession(Some(other)));
        GivenBackAbsent(run + [event], OpenSession(Some(other)), CloseSession(other));
      }
    }
  }

  method OpenOperationSession(bus: Bus) returns (result: Result<Path, Error>, ghost session: Option<Path>)
    modifies bus
    ensures bus.log == old(bus.log) + [OpenSession(session)]
    ensures session == if result.Success? then Some(result.value) else None
    ensures Reported(Refusal(result))
    ensures Accounted(Refusal(result), [OpenSession(session)], bus.script, |old(bus.log)|)
  {
    hide Reported, Accounted, BackendError;
    var answer := bus.Next();
    bus.Send(OpenSession(answer.Returned()));
    if answer.err.Some? {
      BackendReported(answer.context, answer.busName, answer.err.value);
      AccountedCall(OpenSession(None), bus.script, |old(bus.log)|);
      return Failure(BackendError(answer.context, answer.busName, answer.err.value)), None;
    }
    NothingReported();
    AccountedQuiet(OpenSession(Some(answer.path)), bus.script, |old(bus.log)|);
    return Success(answer.path), Some(answer.path);
  }

  /** `closeSession`, deferred: not for an interrupted result. A failure to close is joined to the result of the calls before it. */
  method CloseOperationSession(bus: Bus, session: Path, result: Option<Error>, ghost before: seq<Event>) returns (failure: Option<Error>)
    requires |before| <= |bus.log| && Accounted(result, before, bus.script, |bus.log| - |before|)
    modifies bus
    ensures bus.log == old(bus.log) + if Interrupted(result) then [] else [CloseSession(session)]
    ensures Interrupted(result) ==> failure == result
    ensures failure.None? ==> result.None?
    ensures Reported(result) ==> Reported(failure)
    ensures Accounted(failure, before + if Interrupted(result) then [] else [CloseSession(session)],
                      bus.script, |old(bus.log)| - |before|)
  {
    hide Reported, Accounted, BackendError, Interrupted;
    ghost var start := |bus.log| - |before|;
    if Interrupted(result) {
      assert before + [] == before;
      return result;
    }
    var answer := bus.Next();
    var closing := CloseSession(session);
    bus.Send(closing);
    if answer.err.Some? {
      var err := BackendError(answer.context, answer.busName, answer.err.value);
      BackendReported(answer.context, answer.busName, answer.err.value);
      JoinReported(result, err);
      AccountedCall(closing, bus.script, start + |before|);
      AccountedJoin(result, before, err, [closing], bus.script, start);
      return Some(JoinInto(result, err));
    }
    AccountedQuiet(closing, bus.script, start + |before|);
    AccountedAppend(result, before, None, [closing], bus.script, start);
    return result;
  }

  // ---- Connections ----

  /**
   A whole operation: nothing at all, a failed connection, or one connection that is closed once and
   last; in between every resource is given back, and secrets are touched only behind their guards.
   */
  ghost predicate Released(run: seq<Event>, interrupted: bool) {
    || run == []
    || run == [Connect(false)]
    || (|run| >= 2 && run[0] == Connect(true) && run[|run| - 1] == Disconnect && GaveBack(run[1..|run| - 1], interrupted))
  }

  /** `connect`. */
  method OpenConnection(bus: Bus, context: Context) returns (failure: Option<Error>, ghost run: seq<Event>)
    modifies bus
    ensures bus.log == old(bus.log) + run
    ensures run == if failure.None? then [Connect(true)] else if context != Live then [] else [Connect(false)]
    ensures Reported(failure)
    ensures context != Live ==> failure.Some? && EndedBy(context, failure.value)
    ensures context == Live ==> Accounted(failure, run, bus.script, |old(bus.log)|)
  {
    hide Reported, Accounted, BackendError, EndedBy, ContextError;
    var ended := ContextError(context);
    ContextReported(context);
    ContextErrorIsClassified(context);
    if ended.Some? {
      return ended, [];
    }
    var answer := bus.Next();
    var connecting := Connect(answer.err.None?);
    bus.Send(connecting);
    if answer.err.Some? {
      BackendReported(answer.context, answer.busName, answer.err.value);
      AccountedCall(connecting, bus.script, |old(bus.log)|);
      return Some(BackendError(answer.context, answer.busName, answer.err.value)), [connecting];
    }
    AccountedQuiet(connecting, bus.script, |old(bus.log)|);
    return None, [connecting];
  }

  /** `close`, deferred. A failure to close is joined to the result of the calls before it. */
  method CloseConnection(bus: Bus, result: Option<Error>, ghost before: seq<Event>) returns (failure: Option<Error>)
    requires |before| <= |bus.log| && Accounted(result, before, bus.script, |bus.log| - |before|)
    modifies bus
    ensures bus.log == old(bus.log) + [Disconnect]
    ensures Interrupted(result) ==> Interrupted(failure)
    ensures failure.None? ==> result.None?
    ensures Reported(result) ==> Reported(failure)
    ensures Accounted(failure, before + [Disconnect], bus.script, |old(bus.log)| - |before|)
  {
    hide Reported, Accounted;
    ghost var start := |bus.log| - |before|;
    var answer := bus.Next();
    bus.Send(Disconnect);
    if answer.err.Some? {
      var added := Tag(BackendFailure, answer.err.value);
      JoinKeeps(result, added);
      TagReported(answer.err.value);
      JoinReported(result, added);
      AccountedDisconnect(bus.script, start + |before|);
      AccountedJoin(result, before, added, [Disconnect], bus.script, start);
      return Some(JoinInto(result, added));
    }
    AccountedQuiet(Disconnect, bus.script, start + |before|);
    AccountedAppend(result, before, None, [Disconnect], bus.script, start);
    return result;
  }

  lemma AccountedDisconnect(script: nat -> Answer, start: nat)
    requires script(start).err.Some?
    ensures Accounted(Some(Tag(BackendFailure, script(start).err.value)), [Disconnect], script, start)
  {
    hide Is, Accounted;
    var err := Tag(BackendFailure, script(start).err.value);
    forall target: Error | Leaf(target)
      ensures Is(err, target) <==> Says(Disconnect, script(start), target)
    {
      TaggedIs(BackendFailure, script(start).err.value, target);
    }
    AccountedOne(Some(err), Disconnect, script, start);
  }

  lemma ReleasedConnection(middle: seq<Event>, interrupted: bool)
    requires GaveBack(middle, interrupted)
    ensures Released([Connect(true)] + middle + [Disconnect], interrupted)
  {
    hide GaveBack;
    var run := [Connect(true)] + middle + [Disconnect];
    assert run[1..|run| - 1] == middle;
  }

  // ---- Operations ----

  /** In a run whose calls are answered from `start` on, the item is the first that a search returned. */
  ghost predicate FoundIn(run: seq<Event>, script: nat -> Answer, start: nat, service: string, key: string, item: Path) {
    exists i | 0 <= i < |run| ::
      run[i] == Search(service, key, true) && script(start + i).items != [] && script(start + i).items[0] == item
  }

  /** The secret was read from this item and is what the service answered. */
  ghost predicate ReadIn(run: seq<Event>, script: nat -> Answer, start: nat, item: Path, value: Bytes) {
    exists i | 0 <= i < |run| ::
      run[i].ReadSecret? && run[i].item == item && script(start + i).err.None? && script(start + i).secret == value
  }

  /** The prompt that the i-th call returned needed no answer, or was completed later and not dismissed. */
  predicate Settled(run: seq<Event>, i: nat, prompt: Option<Path>) {
    && prompt.Some?
    && (prompt.value == NO_PROMPT || exists j | i < j < |run| :: run[j] == Completed(prompt.value, Accepted))
  }

  predicate CreatedAt(run: seq<Event>, i: nat, service: string, key: string, value: Bytes) {
    && i < |run| && run[i].CreateItem?
    && run[i].service == service && run[i].key == key && run[i].value == value && Settled(run, i, run[i].prompt)
  }

  predicate DeletedAt(run: seq<Event>, i: nat, item: Path) {
    i < |run| && run[i].DeleteItem? && run[i].item == item && Settled(run, i, run[i].prompt)
  }

  /** An item with exactly these attributes and value was created. */
  ghost predicate CreatedIn(run: seq<Event>, service: string, key: string, value: Bytes) {
    exists i: nat :: CreatedAt(run, i, service, key, value)
  }

  ghost predicate DeletedIn(run: seq<Event>, item: Path) {
    exists i: nat :: DeletedAt(run, i, item)
  }

  lemma SettledLater(before: seq<Event>, run: seq<Event>, after: seq<Event>, i: nat, prompt: Option<Path>)
    requires Settled(run, i, prompt)
    ensures Settled(before + run + after, |before| + i, prompt)
  {
    if prompt.value != NO_PROMPT {
      var j :| i < j < |run| && run[j] == Completed(prompt.value, Accepted);
      assert (before + run + after)[|before| + j] == run[j];
    }
  }

  lemma FoundLater(before: seq<Event>, run: seq<Event>, after: seq<Event>, script: nat -> Answer, start: nat,
                   service: string, key: string, item: Path)
    requires FoundIn(run, script, start + |before|, service, key, item)
    ensures FoundIn(before + run + after, script, start, service, key, item)
  {
    var i :| 0 <= i < |run| && run[i] == Search(service, key, true)
             && script(start + |before| + i).items != [] && script(start + |before| + i).items[0] == item;
    assert (before + run + after)[|before| + i] == run[i];
  }

  lemma ReadLater(before: seq<Event>, run: seq<Event>, after: seq<Event>, script: nat -> Answer, start: nat, item: Path, value: Bytes)
    requires ReadIn(run, script, start + |before|, item, value)
    ensures ReadIn(before + run + after, script, start, item, value)
  {
    var i :| 0 <= i < |run| && run[i].ReadSecret? && run[i].item == item
             && script(start + |before| + i).err.None? && script(start + |before| + i).secret == value;
    assert (before + run + after)[|before| + i] == run[i];
  }

  lemma CreatedLater(before: seq<Event>, run: seq<Event>, after: seq<Event>, service: string, key: string, value: Bytes)
    requires CreatedIn(run, service, key, value)
    ensures CreatedIn(before + run + after, service, key, value)
  {
    var i: nat :| CreatedAt(run, i, service, key, value);
    assert (before + run + after)[|before| + i] == run[i];
    SettledLater(before, run, after, i, run[i].prompt);
    assert CreatedAt(before + run + after, |before| + i, service, key, value);
  }

  lemma DeletedLater(before: seq<Event>, run: seq<Event>, after: seq<Event>, item: Path)
    requires DeletedIn(run, item)
    ensures DeletedIn(before + run + after, item)
  {
    var i: nat :| DeletedAt(run, i, item);
    assert (before + run + after)[|before| + i] == run[i];
    SettledLater(before, run, after, i, run[i].prompt);
    assert DeletedAt(before + run + after, |before| + i, item);
  }

  lemma SettledByPrompt(before: seq<Event>, rest: seq<Event>, i: nat, prompt: Path)
    requires i < |before|
    requires prompt == NO_PROMPT || Completed(prompt, Accepted) in rest
    ensures Settled(before + rest, i, Some(prompt))
  {
    if prompt != NO_PROMPT {
      var j :| 0 <= j < |rest| && rest[j] == Completed(prompt, Accepted);
      assert (before + rest)[|before| + j] == rest[j];
    }
  }

  /** The beginning of `get` and `remove`: unlock the collection, find the item, unlock the item. */
  method Locate(bus: Bus, service: string, key: string) returns (result: Result<Path, Error>, ghost run: seq<Event>)
    modifies bus
    ensures bus.log == old(bus.log) + run && Plain(run) && SearchesOnce(run, service, key)
    ensures result.Success? ==> Unlocked(run, COLLECTION) && Unlocked(run, result.value)
    ensures result.Success? ==> FoundIn(run, bus.script, |old(bus.log)|, service, key, result.value)
    ensures Reported(Refusal(result))
    ensures Accounted(Refusal(result), run, bus.script, |old(bus.log)|)
  {
    hide Plain, Unlocked, Reported, Accounted, Exactly, SearchesOnce, Searchless;
    ghost var start, script := |bus.log|, bus.script;
    ghost var first, second, third;
    var failure;
    failure, first := UnlockObject(bus, COLLECTION);
    SearchlessOnce(first, service, key);
    if failure.Some? {
      return Failure(failure.value), first;
    }
    var item;
    item, second := Find(bus, service, key);
    PlainAppend(first, second);
    UnlockedMore(first, second, COLLECTION);
    SearchedBetween(first, second[0], [], service, key);
    AccountedAppend(None, first, Refusal(item), second, script, start);
    assert first + second + [] == first + second;
    if item.Failure? {
      return item, first + second;
    }
    failure, third := UnlockObject(bus, item.value);
    PlainAppend(first + second, third);
    SearchedBetween(first, second[0], third, service, key);
    AccountedAppend(None, first + second, failure, third, script, start);
    run := first + second + third;
    if failure.Some? {
      return Failure(failure.value), run;
    }
    UnlockedMore(first + second, third, COLLECTION);
    UnlockedMore(third, first + second, item.value);
    assert run[|first|] == Search(service, key, true);
    return item, run;
  }

  lemma SearchlessOnce(run: seq<Event>, service: string, key: string)
    requires Searchless(run)
    ensures SearchesOnce(run, service, key)
  {
  }

  lemma SearchedBetween(before: seq<Event>, event: Event, after: seq<Event>, service: string, key: string)
    requires Searchless(before) && Searchless(after) && event.Search? && event.service == service && event.key == key
    ensures SearchesOnce(before + [event] + after, service, key)
  {
    var run := before + [event] + after;
    forall i | 0 <= i < |run| && run[i].Search?
      ensures i == |before|
    {
    }
  }

  lemma SearchedAmong(before: seq<Event>, run: seq<Event>, after: seq<Event>, service: string, key: string)
    requires Searchless(before) && Searchless(after) && SearchesOnce(run, service, key)
    ensures SearchesOnce(before + run + after, service, key)
  {
    var all := before + run + after;
    forall i | 0 <= i < |all| && all[i].Search?
      ensures |before| <= i < |before| + |run| && all[i] == run[i - |before|]
    {
    }
  }

  lemma PlainHolds(run: seq<Event>)
    requires Plain(run)
    ensures HoldsSession(run, None) && GaveBack(run, false)
  {
    hide Plain, HoldsSession, GaveBack;
    HoldsNothing();
    HoldsMore([], None, run);
    assert [] + run == run;
    GivesBack(run, None);
  }

  /** What `get` does with an unlocked item: a session, one read, and the session given back. */
  method ReadItem(bus: Bus, item: Path, ghost before: seq<Event>)
    returns (value: Bytes, failure: Option<Error>, ghost run: seq<Event>, ghost interrupted: bool)
    requires HoldsSession(before, None) && Unlocked(before, COLLECTION) && Unlocked(before, item)
    modifies bus
    ensures bus.log == old(bus.log) + run && GaveBack(before + run, interrupted) && Searchless(run)
    ensures interrupted ==> Interrupted(failure)
    ensures failure.None? ==> ReadIn(run, bus.script, |old(bus.log)|, item, value)
    ensures Reported(failure)
    ensures Accounted(failure, run, bus.script, |old(bus.log)|)
  {
    hide HoldsSession, GaveBack, Unlocked, Interrupted, Reported, Accounted, BackendError;
    ghost var start, script := |bus.log|, bus.script;
    failure := None;
    NothingReported();
    var begun;
    ghost var session;
    begun, session := OpenOperationSession(bus);
    ghost var opening := OpenSession(session);
    ghost var held := before + [opening];
    HoldsOpened(before, session);
    if begun.Failure? {
      GivesBack(held, None);
      return [], Some(begun.error), [opening], false;
    }
    UnlockedMore(before, [opening], COLLECTION);
    UnlockedMore(before, [opening], item);
    var answer := bus.Next();
    var reading := ReadSecret(item, begun.value);
    bus.Send(reading);
    HoldsSecret(held, session, reading);
    value := [];
    if answer.err.Some? {
      BackendReported(answer.context, answer.busName, answer.err.value);
      AccountedCall(reading, script, start + 1);
      failure := Some(BackendError(answer.context, answer.busName, answer.err.value));
    } else {
      AccountedQuiet(reading, script, start + 1);
      value := answer.secret;
    }
    AccountedAppend(None, [opening], failure, [reading], script, start);
    run := [opening] + [reading];
    assert held + [reading] == before + run;
    GivesBack(before + run, session);
    interrupted := Interrupted(failure);
    failure := CloseOperationSession(bus, begun.value, failure, run);
    assert run + [] == run;
    if !interrupted {
      assert before + run + [CloseSession(begun.value)] == before + (run + [CloseSession(begun.value)]);
      run := run + [CloseSession(begun.value)];
    }
    assert run[1] == reading;
  }

  /** `get`: on success the value is what the service answered for the first item found. */
  method Get(bus: Bus, context: Context, service: string, key: string)
    returns (value: Bytes, failure: Option<Error>, ghost run: seq<Event>, ghost interrupted: bool)
    modifies bus
    ensures bus.log == old(bus.log) + run && Released(run, interrupted)
    ensures interrupted ==> Interrupted(failure)
    ensures failure.None? ==>
              exists item :: FoundIn(run, bus.script, |old(bus.log)|, service, key, item)
                             && ReadIn(run, bus.script, |old(bus.log)|, item, value)
    ensures Reported(failure)
    ensures context != Live ==> run == [] && failure.Some? && EndedBy(context, failure.value)
    ensures context == Live ==> Accounted(failure, run, bus.script, |old(bus.log)|)
    ensures context == Live && Obliging(bus.script) ==> SearchDecides(failure, run, bus.script, |old(bus.log)|, service, key)
  {
    hide Plain, HoldsSession, GaveBack, Unlocked, Interrupted, FoundIn, ReadIn, Reported, Accounted, EndedBy, Obliging, SearchDecides,
         Released, SearchesOnce, Searchless;
    value, interrupted := [], false;
    ghost var start, script := |bus.log|, bus.script;
    failure, run := OpenConnection(bus, context);
    if failure.Some? {
      NotConnected(failure, run, interrupted, script, start);
      return;
    }
    var item;
    ghost var middle, rest := [], [];
    item, middle := Locate(bus, service, key);
    ghost var located := middle;
    PlainHolds(middle);
    failure := Refusal(item);
    if item.Success? {
      value, failure, rest, interrupted := ReadItem(bus, item.value, middle);
      middle := middle + rest;
      AccountedAppend(None, located, failure, rest, script, start + 1);
    } else {
      NothingSearched();
      assert middle == located + rest;
    }
    AccountedAppend(None, [Connect(true)], failure, middle, script, start);
    failure := CloseConnection(bus, failure, [Connect(true)] + middle);
    ReleasedConnection(middle, interrupted);
    run := [Connect(true)] + middle + [Disconnect];
    if failure.None? {
      FoundLater([Connect(true)], located, rest + [Disconnect], script, start, service, key, item.value);
      ReadLater([Connect(true)] + located, rest, [Disconnect], script, start, item.value, value);
      assert [Connect(true)] + located + (rest + [Disconnect]) == run;
      assert [Connect(true)] + located + rest + [Disconnect] == run;
      FoundSearches(run, script, start, service, key, item.value);
    }
    assert [Connect(true)] + located + rest + [Disconnect] == run;
    DecidesConnected(failure, located, rest, script, start, service, key);
  }

  lemma NothingSearched()
    ensures Searchless([])
  {
  }

  /** Without a connection a call has failed. */
  lemma NotConnected(failure: Option<Error>, run: seq<Event>, interrupted: bool, script: nat -> Answer, start: nat)
    requires failure.Some? && (run == [] || run == [Connect(false)])
    ensures Released(run, interrupted)
    ensures run == [Connect(false)] && Accounted(failure, run, script, start) ==> !Obliging(script)
  {
    hide Said, Is;
  }

  lemma FoundSearches(run: seq<Event>, script: nat -> Answer, start: nat, service: string, key: string, item: Path)
    requires FoundIn(run, script, start, service, key, item)
    ensures exists i | 0 <= i < |run| :: run[i].Search?
  {
  }

  /** The search is among the calls that locate the item. */
  lemma DecidesConnected(failure: Option<Error>, located: seq<Event>, rest: seq<Event>, script: nat -> Answer, start: nat, service: string, key: string)
    requires SearchesOnce(located, service, key) && Searchless(rest)
    requires Accounted(failure, [Connect(true)] + located + rest + [Disconnect], script, start)
    requires failure.None? ==> var run := [Connect(true)] + located + rest + [Disconnect]; exists i | 0 <= i < |run| :: run[i].Search?
    ensures Obliging(script) ==> SearchDecides(failure, [Connect(true)] + located + rest + [Disconnect], script, start, service, key)
  {
    hide Accounted, Obliging, SearchDecides, SearchesOnce;
    var run := [Connect(true)] + located + rest + [Disconnect];
    SearchedAmong([Connect(true)], located, rest + [Disconnect], service, key);
    assert [Connect(true)] + located + (rest + [Disconnect]) == run;
    if Obliging(script) {
      ObligingDecides(failure, run, script, start, service, key);
    }
  }

  /** What `set` does with its session: unlock the collection, then create the item and answer its prompt. */
  method CreateInSession(bus: Bus, session: Path, service: string, key: string, value: Bytes, ghost before: seq<Event>)
    returns (failure: Option<Error>, ghost run: seq<Event>)
    requires HoldsSession(before, Some(session)) && OpenSession(Some(session)) in before
    modifies bus
    ensures bus.log == old(bus.log) + run && HoldsSession(before + run, Some(session)) && Searchless(run)
    ensures failure.None? ==> CreatedIn(run, service, key, value)
    ensures Reported(failure)
    ensures Accounted(failure, run, bus.script, |old(bus.log)|)
  {
    hide HoldsSession, Plain, Unlocked, Reported, Accounted, BackendError, CreatedAt, Settled;
    ghost var start, script := |bus.log|, bus.script;
    failure, run := UnlockObject(bus, COLLECTION);
    HoldsMore(before, Some(session), run);
    if failure.Some? {
      return;
    }
    UnlockedMore(run, before, COLLECTION);
    var answer := bus.Next();
    var creating := CreateItem(session, service, key, value, answer.Returned());
    bus.Send(creating);
    HoldsSecret(before + run, Some(session), creating);
    ghost var first := run;
    assert before + first + [creating] == before + (first + [creating]);
    run := first + [creating];
    assert run[|first|] == creating;
    if answer.err.Some? {
      BackendReported(answer.context, answer.busName, answer.err.value);
      failure := Some(BackendError(answer.context, answer.busName, answer.err.value));
      AccountedCall(creating, script, start + |first|);
      AccountedAppend(None, first, failure, [creating], script, start);
      return;
    }
    AccountedQuiet(creating, script, start + |first|);
    AccountedAppend(None, first, None, [creating], script, start);
    ghost var rest;
    failure, rest := HandlePrompt(bus, answer.path);
    HoldsMore(before + run, Some(session), rest);
    assert before + run + rest == before + (run + rest);
    AccountedAppend(None, run, failure, rest, script, start);
    if failure.None? {
      SettledByPrompt(run, rest, |first|, answer.path);
      CreatedBy(run + rest, |first|, service, key, value);
    }
    run := run + rest;
  }

  lemma CreatedBy(run: seq<Event>, i: nat, service: string, key: string, value: Bytes)
    requires i < |run| && run[i].CreateItem?
    requires run[i].service == service && run[i].key == key && run[i].value == value && Settled(run, i, run[i].prompt)
    ensures CreatedIn(run, service, key, value)
  {
    assert CreatedAt(run, i, service, key, value);
  }

  /** Everything `set` does while connected. */
  method SetConnected(bus: Bus, service: string, key: string, value: Bytes)
    returns (failure: Option<Error>, ghost run: seq<Event>, ghost interrupted: bool)
    modifies bus
    ensures bus.log == old(bus.log) + run && GaveBack(run, interrupted) && Searchless(run)
    ensures interrupted ==> Interrupted(failure)
    ensures failure.None? ==> CreatedIn(run, service, key, value)
    ensures Reported(failure)
    ensures Accounted(failure, run, bus.script, |old(bus.log)|)
  {
    hide HoldsSession, GaveBack, Interrupted, CreatedIn, Reported, Accounted;
    ghost var start, script := |bus.log|, bus.script;
    var begun;
    ghost var session, rest;
    HoldsNothing();
    begun, session := OpenOperationSession(bus);
    HoldsOpened([], session);
    ghost var opening := [OpenSession(session)];
    assert [] + opening == opening;
    if begun.Failure? {
      GivesBack(opening, None);
      return Some(begun.error), opening, false;
    }
    failure, rest := CreateInSession(bus, begun.value, service, key, value, opening);
    run := opening + rest;
    GivesBack(run, session);
    AccountedAppend(None, opening, failure, rest, script, start);
    interrupted := Interrupted(failure);
    failure := CloseOperationSession(bus, begun.value, failure, run);
    ghost var closing := if interrupted then [] else [CloseSession(begun.value)];
    run := run + closing;
    assert interrupted ==> run == opening + rest;
    if failure.None? {
      CreatedLater(opening, rest, closing, service, key, value);
    }
  }

  /** `set`: on success an item with these attributes and this value was created and its prompt accepted. */
  method Set(bus: Bus, context: Context, service: string, key: string, value: Bytes)
    returns (failure: Option<Error>, ghost run: seq<Event>, ghost interrupted: bool)
    modifies bus
    ensures bus.log == old(bus.log) + run && Released(run, interrupted)
    ensures interrupted ==> Interrupted(failure)
    ensures failure.None? ==> CreatedIn(run, service, key, value)
    ensures Reported(failure)
    ensures context != Live ==> run == [] && failure.Some? && EndedBy(context, failure.value)
    ensures context == Live ==> Accounted(failure, run, bus.script, |old(bus.log)|)
    ensures context == Live && Obliging(bus.script) ==> failure.None?
  {
    hide GaveBack, Interrupted, CreatedIn, Reported, Accounted, EndedBy, Obliging, Released;
    ghost var start, script := |bus.log|, bus.script;
    interrupted := false;
    failure, run := OpenConnection(bus, context);
    if failure.Some? {
      NotConnected(failure, run, interrupted, script, start);
      return;
    }
    ghost var middle;
    failure, middle, interrupted := SetConnected(bus, service, key, value);
    AccountedAppend(None, [Connect(true)], failure, middle, script, start);
    failure := CloseConnection(bus, failure, [Connect(true)] + middle);
    ReleasedConnection(middle, interrupted);
    run := [Connect(true)] + middle + [Disconnect];
    if failure.None? {
      CreatedLater([Connect(true)], middle, [Disconnect], service, key, value);
    }
    if Obliging(script) {
      ObligingSucceeds(failure, run, script, start);
    }
  }

  /** Deleting an unlocked item and answering its prompt. */
  method DeleteLocated(bus: Bus, item: Path, ghost before: seq<Event>) returns (failure: Option<Error>, ghost run: seq<Event>)
    requires HoldsSession(before, None) && Unlocked(before, COLLECTION) && Unlocked(before, item)
    modifies bus
    ensures bus.log == old(bus.log) + run && GaveBack(before + run, false) && Searchless(run)
    ensures failure.None? ==> DeletedIn(run, item)
    ensures Reported(failure)
    ensures Accounted(failure, run, bus.script, |old(bus.log)|)
  {
    hide HoldsSession, GaveBack, Plain, Unlocked, Reported, Accounted, BackendError;
    ghost var start, script := |bus.log|, bus.script;
    var answer := bus.Next();
    var deleting := DeleteItem(item, answer.Returned());
    bus.Send(deleting);
    HoldsSecret(before, None, deleting);
    run := [deleting];
    GivesBack(before + run, None);
    if answer.err.Some? {
      BackendReported(answer.context, answer.busName, answer.err.value);
      AccountedCall(deleting, script, start);
      failure := Some(BackendError(answer.context, answer.busName, answer.err.value));
      return;
    }
    AccountedQuiet(deleting, script, start);
    ghost var rest;
    failure, rest := HandlePrompt(bus, answer.path);
    HoldsMore(before + run, None, rest);
    assert before + run + rest == before + (run + rest);
    AccountedAppend(None, run, failure, rest, script, start);
    if failure.None? {
      SettledByPrompt(run, rest, 0, answer.path);
    }
    run := run + rest;
    GivesBack(before + run, None);
    assert run[0] == deleting;
    assert failure.None? ==> DeletedAt(run, 0, item);
  }

  /** `remove`: on success the first item found was deleted and its prompt accepted. */
  method Remove(bus: Bus, context: Context, service: string, key: string) returns (failure: Option<Error>, ghost run: seq<Event>)
    modifies bus
    ensures bus.log == old(bus.log) + run && Released(run, false)
    ensures failure.None? ==>
              exists item :: FoundIn(run, bus.script, |old(bus.log)|, service, key, item) && DeletedIn(run, item)
    ensures Reported(failure)
    ensures context != Live ==> run == [] && failure.Some? && EndedBy(context, failure.value)
    ensures context == Live ==> Accounted(failure, run, bus.script, |old(bus.log)|)
    ensures context == Live && Obliging(bus.script) ==> SearchDecides(failure, run, bus.script, |old(bus.log)|, service, key)
  {
    hide Plain, HoldsSession, GaveBack, Unlocked, Interrupted, FoundIn, DeletedIn, Reported, Accounted, EndedBy, Obliging, SearchDecides,
         Released, SearchesOnce, Searchless;
    ghost var start, script := |bus.log|, bus.script;
    failure, run := OpenConnection(bus, context);
    if failure.Some? {
      NotConnected(failure, run, false, script, start);
      return;
    }
    var item;
    ghost var located, rest := [], [];
    item, located := Locate(bus, service, key);
    PlainHolds(located);
    failure := Refusal(item);
    if item.Success? {
      failure, rest := DeleteLocated(bus, item.value, located);
      AccountedAppend(None, located, failure, rest, script, start + 1);
    } else {
      NothingSearched();
      assert located + rest == located;
    }
    AccountedAppend(None, [Connect(true)], failure, located + rest, script, start);
    failure := CloseConnection(bus, failure, [Connect(true)] + (located + rest));
    ReleasedConnection(located + rest, false);
    run := [Connect(true)] + (located + rest) + [Disconnect];
    if failure.None? {
      FoundLater([Connect(true)], located, rest + [Disconnect], script, start, service, key, item.value);
      DeletedLater([Connect(true)] + located, rest, [Disconnect], item.value);
      assert [Connect(true)] + located + (rest + [Disconnect]) == run;
      assert [Connect(true)] + located + rest + [Disconnect] == run;
      FoundSearches(run, script, start, service, key, item.value);
    }
    assert [Connect(true)] + located + rest + [Disconnect] == run;
    DecidesConnected(failure, located, rest, script, start, service, key);
  }

  // ---- What the shape of a run means ----

  /**
   In a run that connected, the connection is closed exactly once and last. Every session that was
   opened, unless the operation was interrupted, and every registration is given back exactly as
   often as it was taken, and at no point of the run more often.
   */
  lemma ReleasedMeaning(run: seq<Event>, interrupted: bool, session: Path)
    requires Released(run, interrupted) && Connect(true) in run
    ensures Count(run, Disconnect) == 1 && Count(run, Connect(true)) == 1 && run[|run| - 1] == Disconnect
    ensures Count(run, OpenSession(Some(session))) <= 1
    ensures if interrupted then
              Count(run, CloseSession(session)) == 0
            else
              GivenBack(run, OpenSession(Some(session)), CloseSession(session))
    ensures GivenBack(run, Watch, Unwatch)
    ensures forall rule: Path :: GivenBack(run, AddMatch(rule, true), RemoveMatch(rule))
  {
    hide AllGuarded, GivenBack, Count;
    var middle := run[1..|run| - 1];
    assert run == [Connect(true)] + middle + [Disconnect];
    NotIn(middle, Disconnect);
    NotIn(middle, Connect(true));
    forall event: Event
      ensures Count(run, event) == Count(middle, event) + (if event == Connect(true) then 1 else 0) + (if event == Disconnect then 1 else 0)
    {
      CountAround(Connect(true), middle, Disconnect, event);
    }
    GivenBackBetween(Connect(true), middle, Disconnect, Watch, Unwatch);
    forall rule: Path
      ensures GivenBack(run, AddMatch(rule, true), RemoveMatch(rule))
    {
      GivenBackBetween(Connect(true), middle, Disconnect, AddMatch(rule, true), RemoveMatch(rule));
    }
    if !interrupted {
      GivenBackBetween(Connect(true), middle, Disconnect, OpenSession(Some(session)), CloseSession(session));
    }
  }

  /** Each session is closed, and each registration taken back, only after it was opened or made. */
  lemma ReleasedInOrder(run: seq<Event>, interrupted: bool, i: nat)
    requires Released(run, interrupted) && i < |run|
    ensures run[i] == Unwatch ==> Watch in run[..i]
    ensures run[i].RemoveMatch? ==> AddMatch(run[i].rule, true) in run[..i]
    ensures run[i].CloseSession? ==> OpenSession(Some(run[i].closing)) in run[..i]
  {
    hide GivenBack, Released, Count;
    if run[i] == Unwatch || run[i].RemoveMatch? || run[i].CloseSession? {
      ReleasedConnects(run, interrupted, i);
      ReleasedMeaning(run, interrupted, if run[i].CloseSession? then run[i].closing else "");
    }
    if run[i] == Unwatch {
      GivenAfterTaken(run, Watch, Unwatch, i);
    } else if run[i].RemoveMatch? {
      GivenAfterTaken(run, AddMatch(run[i].rule, true), run[i], i);
    } else if run[i].CloseSession? {
      if interrupted {
        InNone(run, run[i]);
      } else {
        GivenAfterTaken(run, OpenSession(Some(run[i].closing)), run[i], i);
      }
    }
  }

  lemma ReleasedConnects(run: seq<Event>, interrupted: bool, i: nat)
    requires Released(run, interrupted) && i < |run| && !run[i].Connect?
    ensures Connect(true) in run
  {
    hide GaveBack;
    assert run[0] == Connect(true);
  }

  /** No secret is read, created or deleted in any run before what it touches was unlocked. */
  lemma ReleasedIsGuarded(run: seq<Event>, interrupted: bool, i: nat)
    requires Released(run, interrupted) && i < |run|
    ensures Guarded(run[..i], run[i])
  {
    hide Unlocked, Tidy, GivenBack, Count;
    if 0 < i < |run| - 1 {
      var middle := run[1..|run| - 1];
      assert Guarded(middle[..i - 1], middle[i - 1]);
      assert run[..i] == [Connect(true)] + middle[..i - 1];
      GuardedLater([Connect(true)], middle[..i - 1], run[i]);
    }
  }

  lemma GuardedLater(more: seq<Event>, before: seq<Event>, event: Event)
    requires Guarded(before, event)
    ensures Guarded(more + before, event)
  {
    hide Unlocked;
    forall target: Path | Unlocked(before, target)
      ensures Unlocked(more + before, target)
    {
      UnlockedMore(before, more, target);
    }
    forall other | other in before
      ensures other in more + before
    {
    }
  }
}
