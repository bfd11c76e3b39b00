/** Opening the bridge and its operations: secure/wsl2/keyring.go. */
module BridgeKeyring {
  import opened Wrappers
  import opened Errors
  import opened Contexts
  import opened BridgeErrors
  import opened BridgeProtocol
  import opened BridgeClient
  import opened LimitedBuffers
  import Base64

  function ProbeCall(client: Client, e: Exchange): Invocation {
    Invocation(client, PROBE, "", None, e)
  }

  function GetCall(client: Client, account: string, e: Exchange): Invocation {
    Invocation(client, GET, account, None, e)
  }

  function SetCall(client: Client, account: string, password: Bytes, e: Exchange): Invocation {
    Invocation(client, SET, account, Some(Base64.Encode(password)), e)
  }

  function DeleteCall(client: Client, account: string, e: Exchange): Invocation {
    Invocation(client, DELETE, account, None, e)
  }

  /** The operation was cancelled, before it started or while the helper ran. */
  predicate WasCancelled(call: Invocation) {
    call.e.parent == Cancelled || (call.e.parent == Live && call.Sent() && call.e.during == Stopped)
  }

  /** The category a failing invocation reports when its context is neither nil nor cancelled, stage by stage. */
  function FailureCategory(call: Invocation): Category {
    if call.e.parent == Expired then Timeout
    else if !call.client.Configured() || call.e.requestId.Failure? || call.e.requestId.value == "" then BackendFailure
    else if !ValidRequest(call.Request()) then InvalidArgument
    else if call.e.marshal(call.Request()).Failure? then BackendFailure
    else if |call.e.marshal(call.Request()).value| + 1 > 1024 * 1024 then ValueTooLarge
    else if call.e.during == Overdue then Timeout
    else if |call.Whole()| > 1024 * 1024 then BackendFailure
    else if call.Spawned().ending.Broken? then
      if call.operation == "probe" then BackendFailure else BackendUnavailable
    else if call.AnyComplaint() then CodeCategory(call.TheComplaint().code)
    else BackendFailure
  }

  /** The sentinel that stands for a failure is portably what its stage, or the code of the complaint, says. */
  lemma KindIsCategory(call: Invocation)
    requires call.e.parent != Expired
    ensures CategoryOf(call.FailureKind()) == FailureCategory(call)
  {
    hide ValidRequest, RequestOf, Concat, Answers, Invocation.AnyComplaint, SentinelForCode, CodeCategory;
    if call.Sent() && call.AnyComplaint() {
      CodeMeans(call.TheComplaint().code);
    }
  }

  lemma OverdueFromTheStart(call: Invocation)
    ensures call.e.parent == Expired ==> FailureCategory(call) == Timeout
  {
  }

  lemma CodeMeans(code: string)
    requires SentinelForCode(code).Some?
    ensures CategoryOf(SentinelForCode(code).value) == CodeCategory(code)
  {
  }

  /** Every valid complaint of the helper is reported under exactly the category of its code. */
  ghost predicate ComplaintsReported(call: Invocation, failure: Option<Error>) {
    ForeignExchange(call.e) && call.e.parent == Live ==>
      forall complaint | call.Complained(complaint) ::
        KnownCode(complaint.code) && failure.Some? && Exactly(failure.value, CodeCategory(complaint.code))
  }

  lemma ComplaintIsClassified(call: Invocation, err: Error)
    requires Classified(call, err, FailureCategory(call))
    ensures ComplaintsReported(call, Some(err))
  {
    hide ForeignExchange, Exactly, ValidRequest, RequestOf, Concat, PortableError, KnownCode;
    forall complaint | ForeignExchange(call.e) && call.e.parent == Live && call.Complained(complaint)
      ensures KnownCode(complaint.code) && Exactly(err, CodeCategory(complaint.code))
    {
      assert call.AnyComplaint();
      assert call.TheComplaint() == complaint;
    }
  }

  lemma CompletedIsNoComplaint(call: Invocation, reply: Validated, failure: Option<Error>)
    requires call.Completed(reply)
    ensures ComplaintsReported(call, failure)
  {
    hide ForeignExchange, Exactly, ValidRequest, RequestOf, Concat, Answers, KnownCode;
  }

  /** What a failing operation may report: one category, except for a cancelled or a nil context. */
  ghost predicate Classified(call: Invocation, err: Error, category: Category) {
    && (WasCancelled(call) ==> err == Std(Canceled))
    && (call.e.parent == Nil ==> err == PortableError(Fault(InvalidArgument)))
    && (ForeignExchange(call.e) && call.e.parent != Nil && !WasCancelled(call) ==> Exactly(err, category))
  }

  /** What `invoke` promises of a failure. */
  ghost predicate InvokeFailed(call: Invocation, err: Error) {
    && (call.e.parent != Live ==> Some(err) == ContextError(call.e.parent))
    && (call.e.parent == Live && call.Sent() && call.e.during == Stopped ==> err == Std(Canceled))
    && (Undisturbed(call) && ForeignExchange(call.e) ==> OnlyBridge(err, call.FailureKind()))
  }

  lemma FailureIsClassified(call: Invocation, err: Error)
    requires InvokeFailed(call, err)
    ensures Classified(call, PortableError(err), FailureCategory(call))
  {
    hide OnlyBridge, ForeignExchange, PortableError, Exactly, CategoryOf, FailureCategory, Invocation.FailureKind, Invocation.Sent;
    CancellationHasNoCategory();
    ExpiredIsTimeout();
    OverdueFromTheStart(call);
    if Undisturbed(call) && ForeignExchange(call.e) {
      PortableErrorOfSentinel(err, call.FailureKind());
      KindIsCategory(call);
    }
  }

  /** The error matches exactly one portable category. */
  ghost predicate OneCategory(err: Error) {
    exists only: Category :: Exactly(err, only)
  }

  /**
   A failing exchange is reported under exactly one portable category if and only if its context was
   neither nil nor cancelled.
   */
  lemma OneCategoryExactly(call: Invocation, err: Error, category: Category)
    requires ForeignExchange(call.e) && Classified(call, err, category)
    ensures OneCategory(err) <==> call.e.parent != Nil && !WasCancelled(call)
  {
    hide ForeignExchange, WasCancelled, PortableError;
    NilContextMatchesTwo();
    CancellationHasNoCategory();
    if WasCancelled(call) {
      forall only: Category
        ensures !Exactly(err, only)
      {
        assert !IsCategory(err, only);
      }
    }
  }

  lemma CategoryOfFailure(call: Invocation, err: Error)
    requires Classified(call, err, FailureCategory(call))
    ensures ForeignExchange(call.e) ==> (OneCategory(err) <==> call.e.parent != Nil && !WasCancelled(call))
  {
    hide ForeignExchange, Classified, OneCategory, WasCancelled, FailureCategory;
    if ForeignExchange(call.e) {
      OneCategoryExactly(call, err, FailureCategory(call));
    }
  }

  lemma ExactlyIsOne(err: Error, category: Category)
    requires Exactly(err, category)
    ensures OneCategory(err)
  {
    hide Exactly;
  }

  /** An exchange that was cancelled has no reply. */
  lemma CompletedIsNotCancelled(call: Invocation, reply: Validated)
    requires call.Completed(reply) && call.e.parent == Live
    ensures !WasCancelled(call)
  {
    hide ValidRequest, RequestOf, Concat, Answers;
  }

  method Get(client: Client, username: string, e: Exchange) returns (result: Result<Bytes, Error>)
    ensures var call := GetCall(client, username, e);
            && (result.Success? ==> exists reply :: e.parent == Live && call.Completed(reply) && result.value == reply.secret)
            && (result.Failure? ==> e.parent != Live || forall reply :: !call.Completed(reply))
            && (result.Failure? ==> Classified(call, result.error, FailureCategory(call)))
            && ComplaintsReported(call, if result.Failure? then Some(result.error) else None)
            && (result.Failure? && ForeignExchange(e) ==>
                  (OneCategory(result.error) <==> e.parent != Nil && !WasCancelled(call)))
  {
    hide ComplaintsReported, FailureCategory, Invocation.Completed, OneCategory, WasCancelled, Classified, OnlyBridge, ForeignExchange, PortableError, Undisturbed, Invocation.FailureKind;
    ghost var call := GetCall(client, username, e);
    var invoked := Invoke(client, GET, username, None, e);
    if invoked.Failure? {
      FailureIsClassified(call, invoked.error);
      CategoryOfFailure(call, PortableError(invoked.error));
      ComplaintIsClassified(call, PortableError(invoked.error));
      return Failure(PortableError(invoked.error));
    }
    CompletedIsNoComplaint(call, invoked.value, None);
    return Success(invoked.value.secret);
  }

  method Set(client: Client, username: string, password: Bytes, e: Exchange) returns (failure: Option<Error>)
    ensures |password| > 2560 ==> failure.Some? && Exactly(failure.value, ValueTooLarge)
    ensures |password| <= 2560 ==>
              var call := SetCall(client, username, password, e);
              && (failure.None? <==> e.parent == Live && exists reply :: call.Completed(reply))
              && (failure.Some? ==> Classified(call, failure.value, FailureCategory(call)))
              && ComplaintsReported(call, failure)
    ensures failure.Some? && ForeignExchange(e) ==>
              var call := SetCall(client, username, password, e);
              (OneCategory(failure.value) <==>
               |password| > 2560 || (e.parent != Nil && !WasCancelled(call)))
  {
    hide ComplaintsReported, FailureCategory, Invocation.Completed, OneCategory, WasCancelled, Exactly, Classified, OnlyBridge, ForeignExchange, PortableError, Undisturbed, Invocation.FailureKind;
    if |password| > MAXIMUM_SECRET {
      RaiseIs(0, TooLarge);
      PortableErrorOfSentinel(Raise(TooLarge), TooLarge);
      ExactlyIsOne(PortableError(Raise(TooLarge)), ValueTooLarge);
      return Some(PortableError(Raise(TooLarge)));
    }
    ghost var call := SetCall(client, username, password, e);
    var secret := Base64.Encode(password);
    var invoked := Invoke(client, SET, username, Some(secret), e);
    if invoked.Failure? {
      FailureIsClassified(call, invoked.error);
      CategoryOfFailure(call, PortableError(invoked.error));
      ComplaintIsClassified(call, PortableError(invoked.error));
      return Some(PortableError(invoked.error));
    }
    CompletedIsNoComplaint(call, invoked.value, None);
    return None;
  }

  /** The helper confirms that it deleted something. */
  predicate Deleted(reply: Validated) {
    reply.response.result.Some? && reply.response.result.value.deleted == Some(true)
  }

  /** Whether the helper completed the deletion but had nothing to delete. */
  ghost predicate NothingDeleted(call: Invocation) {
    call.e.parent == Live && exists reply :: call.Completed(reply) && !Deleted(reply)
  }

  method Delete(client: Client, username: string, e: Exchange) returns (failure: Option<Error>)
    ensures var call := DeleteCall(client, username, e);
            && (failure.None? <==> e.parent == Live && exists reply :: call.Completed(reply) && Deleted(reply))
            && (NothingDeleted(call) ==> failure.Some? && Exactly(failure.value, NotFound))
            && (failure.Some? && !NothingDeleted(call) ==> Classified(call, failure.value, FailureCategory(call)))
            && ComplaintsReported(call, failure)
            && (failure.Some? && ForeignExchange(e) ==>
                  (OneCategory(failure.value) <==> e.parent != Nil && !WasCancelled(call)))
  {
    hide ComplaintsReported, FailureCategory, Invocation.Completed, OneCategory, WasCancelled, Classified, OnlyBridge, ForeignExchange, PortableError, Undisturbed, Invocation.FailureKind, Exactly;
    ghost var call := DeleteCall(client, username, e);
    var invoked := Invoke(client, DELETE, username, None, e);
    if invoked.Failure? {
      FailureIsClassified(call, invoked.error);
      CategoryOfFailure(call, PortableError(invoked.error));
      ComplaintIsClassified(call, PortableError(invoked.error));
      return Some(PortableError(invoked.error));
    }
    CompletedOnce(call, invoked.value);
    DeletionShape(call, invoked.value);
    var fields := invoked.value.response.result.value;
    if fields.deleted.None? || !fields.deleted.value {
      LeafIsOnly(Missing);
      PortableErrorOfSentinel(Wsl(Missing), Missing);
      ExactlyIsOne(PortableError(Wsl(Missing)), NotFound);
      CompletedIsNotCancelled(call, invoked.value);
      CompletedIsNoComplaint(call, invoked.value, Some(PortableError(Wsl(Missing))));
      return Some(PortableError(Wsl(Missing)));
    }
    CompletedIsNoComplaint(call, invoked.value, None);
    return None;
  }

  lemma LeafIsOnly(sentinel: Bridge)
    ensures OnlyBridge(Wsl(sentinel), sentinel)
  {
    LeafIs(sentinel);
  }

  /** There is at most one completed reply. */
  lemma CompletedOnce(call: Invocation, reply: Validated)
    requires call.Completed(reply)
    ensures forall other :: call.Completed(other) ==> other == reply
  {
    hide Answers, Invocation.Heard, ValidRequest, RequestOf;
    forall other | call.Completed(other)
      ensures other == reply
    {
      DecodedReply(call, reply);
      DecodedReply(call, other);
    }
  }

  lemma DeletionShape(call: Invocation, reply: Validated)
    requires call.Completed(reply)
    ensures reply.response.result.Some?
  {
    hide ResultShape, ValidRequest, RequestOf, Concat;
  }

  // ---- Opening ----

  /** Selection goes on to the next backend exactly for these two categories. */
  ghost predicate Continues(err: Error) {
    IsCategory(err, BackendUnavailable) || IsCategory(err, Unsupported)
  }

  /** The replies of a present helper that let selection continue. */
  ghost predicate DeclinesByReply(call: Invocation) {
    call.e.parent == Live && call.AnyComplaint()
    && call.TheComplaint().code in {"backend_unavailable", "unsupported_protocol", "unsupported_operation"}
  }

  /** Exactly the situations in which selection continues past the bridge. */
  ghost predicate Bypassed(ctx: Context, service: string, onWSL2: bool, lookup: Result<string, Error>, e: Exchange) {
    && ctx == Live && ValidName(service)
    && (!onWSL2
        || (lookup.Failure? && Is(lookup.error, Std(ExecNotFound)))
        || (lookup.Success? && DeclinesByReply(ProbeCall(Opened(service, lookup.value), e))))
  }

  const DEFAULT_TIMEOUT: int := 15

  function Opened(service: string, helperPath: string): Client {
    Client(service, helperPath, DEFAULT_TIMEOUT, true)
  }

  /** If opening comes to a probe, its context is neither gone before nor cancelled during it. */
  predicate Steady(ctx: Context, service: string, onWSL2: bool, lookup: Result<string, Error>, e: Exchange) {
    ValidName(service) && onWSL2 && lookup.Success? ==> Undisturbed(ProbeCall(Opened(service, lookup.value), e))
  }

  /** What a failed opening reports, stage by stage. */
  function OpeningCategory(service: string, onWSL2: bool, lookup: Result<string, Error>, e: Exchange): Category {
    if !ValidName(service) then InvalidArgument
    else if !onWSL2 then Unsupported
    else if lookup.Failure? then if Is(lookup.error, Std(ExecNotFound)) then BackendUnavailable else BackendFailure
    else FailureCategory(ProbeCall(Opened(service, lookup.value), e))
  }

  /**
   `New`; `onWSL2` and `lookup` are the answers of the kernel and of the path search. The context of
   the probe is the caller's, looked at again later.
   */
  method New(ctx: Context, service: string, onWSL2: bool, lookup: Result<string, Error>, e: Exchange)
    returns (result: Result<Client, Error>)
    requires ctx != Nil ==> e.parent != Nil
    ensures result.Success? <==>
            && ctx == Live && ValidName(service) && onWSL2 && lookup.Success?
            && e.parent == Live && exists reply :: ProbeCall(Opened(service, lookup.value), e).Completed(reply)
    ensures result.Success? ==> result.value == Opened(service, lookup.value)
    ensures ctx != Live ==> result.Failure? && EndedBy(ctx, result.error)
    ensures result.Failure? && ctx == Live && ForeignExchange(e) && (lookup.Failure? ==> Foreign(lookup.error))
            && Steady(ctx, service, onWSL2, lookup, e) ==>
              Exactly(result.error, OpeningCategory(service, onWSL2, lookup, e))
    ensures result.Failure? && ForeignExchange(e) && (lookup.Failure? ==> Foreign(lookup.error)) ==>
              (Continues(result.error) <==> Bypassed(ctx, service, onWSL2, lookup, e))
  {
    hide Invocation.Completed, OnlyBridge, ForeignExchange, Foreign, PortableError, Undisturbed, Invocation.FailureKind,
         Continues, DeclinesByReply, Exactly, FailureCategory, EndedBy, ContextError;
    ContextErrorIsClassified(ctx);
    var ended := ContextError(ctx);
    if ended.Some? {
      ContextErrorStops(ctx);
      return Failure(ended.value);
    }
    if service == "" {
      SentinelContinues(Raise(BadArgument), BadArgument);
      return Failure(PortableError(Raise(BadArgument)));
    }
    if '\0' in service {
      SentinelContinues(Raise(BadArgument), BadArgument);
      return Failure(PortableError(Raise(BadArgument)));
    }
    if !onWSL2 {
      SentinelContinues(Wsl(NotWSL2), NotWSL2);
      return Failure(PortableError(Wsl(NotWSL2)));
    }
    if lookup.Failure? {
      var err := LookupError(lookup.error);
      if Foreign(lookup.error) {
        LookupContinues(lookup.error);
      }
      return Failure(PortableError(err));
    }
    var client := Client(service, lookup.value, DEFAULT_TIMEOUT, true);
    ghost var call := ProbeCall(client, e);
    var probed := Invoke(client, PROBE, "", None, e);
    if probed.Failure? {
      if ForeignExchange(e) {
        ProbeContinues(call, probed.error);
      }
      return Failure(PortableError(Annotate(probed.error)));
    }
    assert ProbeCall(Opened(service, lookup.value), e).Completed(probed.value);
    return Success(client);
  }

  /** The error of a failed path search: `ErrHelperNotFound` wraps the unavailable sentinel. */
  function LookupError(err: Error): Error {
    if Is(err, Std(ExecNotFound)) then Two(0, One(2, Wsl(Unavailable)), err) else Two(0, Wsl(HelperFailure), err)
  }

  lemma ContextErrorStops(ctx: Context)
    requires ctx != Live
    ensures !Continues(ContextError(ctx).value)
  {
  }

  lemma SentinelContinues(err: Error, sentinel: Bridge)
    requires err == Raise(sentinel) || err == Wsl(sentinel)
    ensures Continues(PortableError(err)) <==> CategoryOf(sentinel) in {BackendUnavailable, Unsupported}
    ensures Exactly(PortableError(err), CategoryOf(sentinel))
  {
    hide PortableError, IsCategory;
    if err == Raise(sentinel) {
      RaiseIs(0, sentinel);
    } else {
      LeafIsOnly(sentinel);
    }
    PortableErrorOfSentinel(err, sentinel);
  }

  lemma OnlyBridgeContinues(err: Error, sentinel: Bridge)
    requires OnlyBridge(err, sentinel)
    ensures Continues(PortableError(err)) <==> sentinel in {Unavailable, UnsupportedProtocol, UnsupportedOperation, NotWSL2}
    ensures Exactly(PortableError(err), CategoryOf(sentinel))
  {
    hide PortableError, IsCategory, OnlyBridge;
    PortableErrorOfSentinel(err, sentinel);
  }

  lemma LookupContinues(err: Error)
    requires Foreign(err)
    ensures Continues(PortableError(LookupError(err))) <==> Is(err, Std(ExecNotFound))
    ensures Exactly(PortableError(LookupError(err)), if Is(err, Std(ExecNotFound)) then BackendUnavailable else BackendFailure)
  {
    hide PortableError, Continues, OnlyBridge, Foreign, Exactly;
    if Is(err, Std(ExecNotFound)) {
      HelperNotFound(err);
      OnlyBridgeContinues(LookupError(err), Unavailable);
    } else {
      RaiseOver(HelperFailure, err);
      OnlyBridgeContinues(LookupError(err), HelperFailure);
    }
  }

  lemma HelperNotFound(err: Error)
    requires Foreign(err)
    ensures OnlyBridge(Two(0, One(2, Wsl(Unavailable)), err), Unavailable)
  {
    hide Is;
    var first := One(2, Wsl(Unavailable));
    RaiseIs(2, Unavailable);
    UnavailableIs();
    forall target: Error | target.Portable? || target.Wsl? || target.Std?
      ensures Is(Two(0, first, err), target) <==> Is(first, target) || Is(err, target)
    {
      TwoIs(0, first, err, target);
    }
  }

  lemma UnavailableIs()
    ensures !Is(One(2, Wsl(Unavailable)), Std(DeadlineExceeded))
  {
  }

  /** A failed probe lets selection continue exactly when the helper itself declined. */
  lemma ProbeContinues(call: Invocation, err: Error)
    requires call.operation == PROBE && call.Typical() && ForeignExchange(call.e) && call.e.parent != Nil
    requires InvokeFailed(call, err)
    ensures Continues(PortableError(Annotate(err))) <==> DeclinesByReply(call)
    ensures Undisturbed(call) ==> Exactly(PortableError(Annotate(err)), FailureCategory(call))
  {
    hide Exactly, FailureCategory, PortableError, Annotate, OnlyBridge, ForeignExchange, Continues, Invocation.FailureKind, Invocation.Sent,
         Invocation.AnyComplaint, IsCategory, Is;
    if Undisturbed(call) {
      AnnotateOnlyBridge(err, call.FailureKind());
      OnlyBridgeContinues(Annotate(err), call.FailureKind());
      ProbeKind(call);
      KindIsCategory(call);
    } else if WasCancelled(call) {
      CancelledProbeStops();
      CancelledHasNoReply(call);
    } else {
      ExpiredProbeStops();
    }
  }

  lemma CancelledHasNoReply(call: Invocation)
    requires WasCancelled(call)
    ensures !DeclinesByReply(call)
  {
    hide ValidRequest, RequestOf, Concat, Answers;
  }

  lemma CancelledProbeStops()
    ensures !Continues(PortableError(Annotate(Std(Canceled))))
  {
    AnnotateIs(Std(Canceled), Std(Canceled));
    AnnotateIs(Std(Canceled), Portable(BackendUnavailable));
    AnnotateIs(Std(Canceled), Portable(Unsupported));
    assert Is(Std(Canceled), Std(Canceled));
    assert !Is(Std(Canceled), Portable(BackendUnavailable)) && !Is(Std(Canceled), Portable(Unsupported));
  }

  lemma ExpiredProbeStops()
    ensures !Continues(PortableError(Annotate(Tag(Timeout, Std(DeadlineExceeded)))))
  {
    hide Is;
    var err := Tag(Timeout, Std(DeadlineExceeded));
    forall target: Error | target.Portable? || target.Std? || target.Wsl?
      ensures Is(Annotate(err), target) <==> target == Portable(Timeout) || target == Std(DeadlineExceeded)
    {
      AnnotateIs(err, target);
      TwoIs(0, Portable(Timeout), Std(DeadlineExceeded), target);
      PortableIs(Timeout);
      StandardIs(DeadlineExceeded);
    }
    PortableErrorMatches(Annotate(err), BackendUnavailable);
    PortableErrorMatches(Annotate(err), Unsupported);
  }

  /** Which kinds of failure of a probe let selection continue. */
  lemma ProbeKind(call: Invocation)
    requires call.operation == PROBE && call.e.parent == Live
    ensures call.FailureKind() in {Unavailable, UnsupportedProtocol, UnsupportedOperation, NotWSL2} <==> DeclinesByReply(call)
  {
    hide ValidRequest, RequestOf, LimitedBuffers.Concat, Answers;
    if call.AnyComplaint() {
      var code := call.TheComplaint().code;
      assert SentinelForCode(code).value in {Unavailable, UnsupportedProtocol, UnsupportedOperation, NotWSL2}
             <==> code in {"backend_unavailable", "unsupported_protocol", "unsupported_operation"};
    }
  }
}
