/**
 One exchange with keyring-winbridge.exe and the operations built on it: secure/wsl2/process.go,
 secure/wsl2/client.go and secure/wsl2/keyring.go.
 */
module BridgeClient {
  import opened Wrappers
  import opened Errors
  import opened Contexts
  import opened BridgeErrors
  import opened BridgeProtocol
  import opened LimitedBuffers
  import Base64

  // ---- The child process ----

  /** How the child ended: normally, with a status, or without having run to an end. */
  datatype Ending = Exited | ExitedWith(code: int) | Broken(err: Error)

  /** What one run of the child does: the pieces of output it writes, and how it ends. */
  datatype Child = Child(chunks: seq<Bytes>, ending: Ending)

  /** Go's `processResult`. */
  datatype Process = Process(output: Bytes, exitCode: int, err: Option<Error>)

  function ExitCode(ending: Ending): int {
    match ending
    case Exited => 0
    case ExitedWith(code) => code
    case Broken(_) => -1
  }

  /** `run`: the output is complete, or the run has failed as a protocol error. */
  method Run(child: Child) returns (process: Process)
    ensures |Concat(child.chunks)| <= MAXIMUM_MESSAGE ==>
              && process.output == Concat(child.chunks)
              && process.exitCode == ExitCode(child.ending)
              && process.err == (if child.ending.Broken? then Some(child.ending.err) else None)
    ensures |Concat(child.chunks)| > MAXIMUM_MESSAGE ==> process.err == Some(Raise(Protocol))
    ensures |process.output| <= MAXIMUM_MESSAGE
  {
    var output := Collect(child.chunks, MAXIMUM_MESSAGE);
    if output.overflow {
      return Process([], -1, Some(Raise(Protocol)));
    }
    match child.ending
    case Exited => return Process(output.buffer, 0, None);
    case ExitedWith(code) => return Process(output.buffer, code, None);
    case Broken(err) => return Process(output.buffer, -1, Some(err));
  }

  // ---- One exchange ----

  /** What the context reports once the child has ended. */
  datatype Watch = Quiet | Stopped | Overdue

  /**
   The environment of one call: the context before and after, the request identifier, the JSON
   codec, and what the child would do with each possible input.
   */
  datatype Exchange = Exchange(
    parent: Context,
    requestId: Result<string, Error>,
    marshal: Request -> Result<Bytes, Error>,
    child: Bytes -> Child,
    during: Watch,
    unmarshal: Bytes -> Result<Response, Error>)

  /** Go's `Keyring`; `wired` says that its function fields are set. */
  datatype Client = Client(service: string, helperPath: string, timeout: int, wired: bool)
  {
    predicate Configured() {
      wired && helperPath != "" && timeout > 0
    }
  }

  const NEWLINE: byte := 10

  function RequestOf(client: Client, operation: string, account: string, secret: Option<string>, id: string): Request {
    if operation == PROBE then
      Request(PROTOCOL_ID, id, operation, "", "", secret)
    else
      Request(PROTOCOL_ID, id, operation, client.service, account, secret)
  }

  /** One call to the helper: the client, what it asks, and the environment. */
  datatype Invocation = Invocation(client: Client, operation: string, account: string, secret: Option<string>, e: Exchange)
  {
    function Request(): Request
      requires e.requestId.Success?
    {
      RequestOf(client, operation, account, secret, e.requestId.value)
    }

    /** A valid request with an identifier can be formed. */
    predicate Formed() {
      && client.Configured()
      && e.requestId.Success? && e.requestId.value != ""
      && ValidRequest(Request())
    }

    /** The request is encoded and small enough to be sent. */
    predicate Sent() {
      && Formed()
      && e.marshal(Request()).Success?
      && |e.marshal(Request()).value| + 1 <= MAXIMUM_MESSAGE
    }

    function Input(): Bytes
      requires Sent()
    {
      e.marshal(Request()).value + [NEWLINE]
    }

    function Spawned(): Child
      requires Sent()
    {
      e.child(Input())
    }

    /** Everything the child wrote. */
    function Whole(): Bytes
      requires Sent()
    {
      Concat(Spawned().chunks)
    }

    /** The child ran to an end in time and its whole output is within the limit. */
    predicate Heard() {
      Sent() && e.during == Quiet && |Whole()| <= MAXIMUM_MESSAGE && !Spawned().ending.Broken?
    }

    /** The whole output is this reply to this request, and the exit status agrees with it. */
    predicate Replied(reply: Validated) {
      && Heard()
      && Whole() != []
      && e.unmarshal(Whole()) == Success(reply.response)
      && Answers(Request(), reply.response, reply.secret)
      && ExitCode(Spawned().ending) == if reply.response.ok then 0 else 1
    }

    predicate Completed(reply: Validated) {
      Replied(reply) && reply.response.ok
    }

    predicate Complained(complaint: Complaint) {
      && Heard()
      && Whole() != []
      && e.unmarshal(Whole()).Success?
      && var response := e.unmarshal(Whole()).value;
         Replied(Validated(response, [])) && !response.ok && response.error == Some(complaint)
    }

    predicate AnyComplaint() {
      && Heard()
      && Whole() != []
      && e.unmarshal(Whole()).Success?
      && var response := e.unmarshal(Whole()).value;
         Replied(Validated(response, [])) && !response.ok
    }

    function TheComplaint(): (complaint: Complaint)
      requires AnyComplaint()
      ensures Complained(complaint) && KnownCode(complaint.code) && SentinelForCode(complaint.code).Some?
    {
      CodesAreKnown(e.unmarshal(Whole()).value.error.value.code);
      e.unmarshal(Whole()).value.error.value
    }

    /** The one sentinel that a failure stands for when nothing from outside interferes. */
    function FailureKind(): Bridge {
      if !client.Configured() || e.requestId.Failure? || e.requestId.value == "" then Internal
      else if !ValidRequest(Request()) then BadArgument
      else if e.marshal(Request()).Failure? then Internal
      else if !Sent() then TooLarge
      else if e.during == Overdue then TimedOut
      else if |Whole()| > MAXIMUM_MESSAGE then Protocol
      else if Spawned().ending.Broken? then if operation == PROBE then HelperFailure else Unavailable
      else if AnyComplaint() then SentinelForCode(TheComplaint().code).value
      else Protocol
    }

    /** The invocations that the operations make. */
    predicate Typical() {
      operation in {PROBE, GET, SET, DELETE} && (operation == SET <==> secret.Some?)
    }
  }

  /** Nothing that comes from outside carries an error the bridge would classify. */
  ghost predicate ForeignExchange(e: Exchange) {
    && (e.requestId.Failure? ==> Foreign(e.requestId.error))
    && (forall request :: e.marshal(request).Failure? ==> Foreign(e.marshal(request).error))
    && (forall input :: e.child(input).ending.Broken? ==> Foreign(e.child(input).ending.err))
    && (forall output :: e.unmarshal(output).Failure? ==> Foreign(e.unmarshal(output).error))
  }

  /** The context stays live throughout. */
  predicate Undisturbed(call: Invocation) {
    call.e.parent == Live && (call.Sent() ==> call.e.during != Stopped)
  }

  const PLAIN := Other(13, true)

  lemma PlainIsForeign()
    ensures Foreign(PLAIN) && Foreign(CORRUPT)
  {
  }

  /** Every request that is sent names the protocol, its operation and the identifier generated for it. */
  predicate Identified(request: Request, operation: string, id: string) {
    request.protocol == "keyring-winbridge/v1alpha1" && request.operation == operation && request.requestId == id && id != ""
  }

  /** Not being able to form the request fails before anything is run. */
  method Prepare(client: Client, operation: string, account: string, secret: Option<string>, e: Exchange)
    returns (result: Result<(Request, Bytes), Error>)
    ensures var call := Invocation(client, operation, account, secret, e);
            && (result.Success? <==> ContextError(e.parent).None? && call.Sent())
            && (result.Success? ==> result.value == (call.Request(), call.Input()))
            && (result.Success? ==> Identified(result.value.0, operation, e.requestId.value))
            && (result.Success? && operation != "probe" ==>
                  result.value.0.service == client.service && result.value.0.account == account)
            && (result.Success? ==> result.value.0.secret == secret && 0 < |result.value.1| <= 1024 * 1024)
            && (result.Failure? && e.parent != Live ==> Some(result.error) == ContextError(e.parent))
            && (result.Failure? && e.parent == Live && call.Typical() && ForeignExchange(e) ==>
                  OnlyBridge(result.error, call.FailureKind()))
  {
    hide OnlyBridge, ForeignExchange, ValidRequest, ValidateRequest, Foreign;
    ghost var call := Invocation(client, operation, account, secret, e);
    var ended := ContextError(e.parent);
    if ended.Some? {
      return Failure(ended.value);
    }
    if !client.wired || client.helperPath == "" {
      RaiseIs(0, Internal);
      return Failure(Raise(Internal));
    }
    if client.timeout <= 0 {
      RaiseIs(0, Internal);
      return Failure(Raise(Internal));
    }
    if e.requestId.Failure? {
      if ForeignExchange(e) {
        ForeignId(e);
        RaiseOver(Internal, e.requestId.error);
      }
      return Failure(Two(0, Wsl(Internal), e.requestId.error));
    }
    if e.requestId.value == "" {
      RaiseIs(0, Internal);
      return Failure(Raise(Internal));
    }
    var request := Request(PROTOCOL_ID, e.requestId.value, operation, "", "", secret);
    if operation != PROBE {
      request := request.(service := client.service, account := account);
    }
    assert request == call.Request();
    var invalid := ValidateRequest(request);
    RequestsAccepted(request);
    if invalid.Some? {
      if call.Typical() {
        TypicalRefusal(call);
        RaiseIs(0, BadArgument);
      }
      return Failure(invalid.value);
    }
    var encoded := e.marshal(request);
    if encoded.Failure? {
      if ForeignExchange(e) {
        ForeignMarshal(e, request);
        RaiseOver(Internal, encoded.error);
      }
      return Failure(Two(0, Wsl(Internal), encoded.error));
    }
    var input := encoded.value + [NEWLINE];
    if |input| > MAXIMUM_MESSAGE {
      RaiseIs(0, TooLarge);
      return Failure(Raise(TooLarge));
    }
    return Success((request, input));
  }

  lemma ForeignId(e: Exchange)
    requires ForeignExchange(e) && e.requestId.Failure?
    ensures Foreign(e.requestId.error)
  {
  }

  lemma ForeignMarshal(e: Exchange, request: Request)
    requires ForeignExchange(e) && e.marshal(request).Failure?
    ensures Foreign(e.marshal(request).error)
  {
  }

  lemma ForeignChild(e: Exchange, input: Bytes)
    requires ForeignExchange(e) && e.child(input).ending.Broken?
    ensures Foreign(e.child(input).ending.err)
  {
  }

  lemma ForeignUnmarshal(e: Exchange, output: Bytes)
    requires ForeignExchange(e) && e.unmarshal(output).Failure?
    ensures Foreign(e.unmarshal(output).error)
  {
  }

  /** The invocations made by the operations can only be refused for a name. */
  lemma TypicalRefusal(call: Invocation)
    requires call.Typical() && call.e.requestId.Success?
    requires !ValidRequest(call.Request())
    ensures ValidateRequest(call.Request()) == Some(Raise(BadArgument))
  {
    RequestsAccepted(call.Request());
  }

  /** `invoke`: succeeds exactly with a completed reply; otherwise says which sentinel went wrong. */
  method Invoke(client: Client, operation: string, account: string, secret: Option<string>, e: Exchange)
    returns (result: Result<Validated, Error>)
    ensures var call := Invocation(client, operation, account, secret, e);
            && (result.Success? ==> e.parent == Live && call.Completed(result.value))
            && (result.Failure? ==> e.parent != Live || forall reply :: !call.Completed(reply))
            && (result.Failure? && e.parent != Live ==> Some(result.error) == ContextError(e.parent))
            && (result.Failure? && e.parent == Live && call.Sent() && e.during == Stopped ==> result.error == Std(Canceled))
            && (result.Failure? && Undisturbed(call) && call.Typical() && ForeignExchange(e) ==>
                  OnlyBridge(result.error, call.FailureKind()))
  {
    hide OnlyBridge, ForeignExchange, ValidRequest, ContextError, Foreign, Answers, Concat, RequestOf;
    ghost var call := Invocation(client, operation, account, secret, e);
    LiveContext(e.parent);
    var prepared := Prepare(client, operation, account, secret, e);
    if prepared.Failure? {
      return Failure(prepared.error);
    }
    var (request, input) := prepared.value;
    var process := Run(e.child(input));
    if e.during == Stopped {
      return Failure(Std(Canceled));
    }
    if e.during == Overdue {
      RaiseOverdue();
      return Failure(Two(0, Wsl(TimedOut), Std(DeadlineExceeded)));
    }
    if process.err.Some? {
      var err := process.err.value;
      if Is(err, Wsl(Protocol)) {
        if ForeignExchange(e) {
          OverflowIsProtocol(call, process);
        }
        return Failure(err);
      }
      if ForeignExchange(e) {
        BrokenIsForeign(call, process);
        RaiseOver(HelperFailure, err);
        RaiseOver(Unavailable, err);
      }
      return Failure(if operation == PROBE then Two(0, Wsl(HelperFailure), err) else Two(0, Wsl(Unavailable), err));
    }
    WholeOutput(call, process);
    assert |process.output| <= MAXIMUM_MESSAGE;
    result := Conclude(request, process, e, call);
  }

  lemma LiveContext(parent: Context)
    ensures ContextError(parent).None? <==> parent == Live
  {
  }

  lemma OverflowIsProtocol(call: Invocation, process: Process)
    requires call.Sent() && call.e.during == Quiet && ForeignExchange(call.e)
    requires |call.Whole()| <= MAXIMUM_MESSAGE ==>
               process.err == if call.Spawned().ending.Broken? then Some(call.Spawned().ending.err) else None
    requires |call.Whole()| > MAXIMUM_MESSAGE ==> process.err == Some(Raise(Protocol))
    requires process.err.Some? && Is(process.err.value, Wsl(Protocol))
    ensures OnlyBridge(process.err.value, call.FailureKind())
  {
    hide OnlyBridge, ForeignExchange, Concat, RequestOf, ValidRequest, Is;
    if |call.Whole()| <= MAXIMUM_MESSAGE {
      ForeignChild(call.e, call.Input());
      assert false;
    }
    RaiseIs(0, Protocol);
  }

  lemma BrokenIsForeign(call: Invocation, process: Process)
    requires call.Sent() && ForeignExchange(call.e)
    requires |call.Whole()| <= MAXIMUM_MESSAGE ==>
               process.err == if call.Spawned().ending.Broken? then Some(call.Spawned().ending.err) else None
    requires |call.Whole()| > MAXIMUM_MESSAGE ==> process.err == Some(Raise(Protocol))
    requires process.err.Some? && !Is(process.err.value, Wsl(Protocol))
    ensures |call.Whole()| <= MAXIMUM_MESSAGE && call.Spawned().ending.Broken? && Foreign(process.err.value)
  {
    hide ForeignExchange, Concat, RequestOf, ValidRequest, Foreign;
    RaisedIsProtocol();
    ForeignChild(call.e, call.Input());
  }

  lemma RaisedIsProtocol()
    ensures Is(Raise(Protocol), Wsl(Protocol))
  {
    assert Is(Wsl(Protocol), Wsl(Protocol));
  }

  lemma WholeOutput(call: Invocation, process: Process)
    requires call.Sent() && call.e.during == Quiet
    requires |call.Whole()| <= MAXIMUM_MESSAGE ==>
               && process.output == call.Whole()
               && process.exitCode == ExitCode(call.Spawned().ending)
               && process.err == if call.Spawned().ending.Broken? then Some(call.Spawned().ending.err) else None
    requires |call.Whole()| > MAXIMUM_MESSAGE ==> process.err == Some(Raise(Protocol))
    requires process.err.None?
    ensures call.Heard() && process.output == call.Whole() && process.exitCode == ExitCode(call.Spawned().ending)
  {
  }

  /** What decoding the whole output says about the invocation. */
  lemma DecodedReply(call: Invocation, reply: Validated)
    requires call.Heard()
    ensures DecodeResponse(call.Whole(), call.Request(), call.e.unmarshal) == Success(reply) <==>
            && call.Whole() != []
            && call.e.unmarshal(call.Whole()) == Success(reply.response)
            && Answers(call.Request(), reply.response, reply.secret)
    ensures call.Replied(reply) <==>
            && DecodeResponse(call.Whole(), call.Request(), call.e.unmarshal) == Success(reply)
            && ExitCode(call.Spawned().ending) == if reply.response.ok then 0 else 1
  {
    hide DecodeResponse, Answers, ValidRequest, RequestOf, Concat;
    ResponsesAccepted(call.Whole(), call.Request(), call.e.unmarshal, reply);
  }

  lemma RefusedReply(call: Invocation)
    requires call.Heard() && call.Typical() && ForeignExchange(call.e)
    requires DecodeResponse(call.Whole(), call.Request(), call.e.unmarshal).Failure?
    ensures OnlyBridge(DecodeResponse(call.Whole(), call.Request(), call.e.unmarshal).error, Protocol)
  {
    hide DecodeResponse, OnlyBridge, Foreign, ForeignExchange, ValidRequest, Concat, Is;
    var output := call.Whole();
    RefusalIsProtocol(output, call.Request(), call.e.unmarshal);
    RaiseIs(0, Protocol);
    PlainIsForeign();
    RaiseOver(Protocol, CORRUPT);
    if call.e.unmarshal(output).Failure? {
      ForeignUnmarshal(call.e, output);
      RaiseOver(Protocol, call.e.unmarshal(output).error);
    }
  }

  lemma NotComplaining(call: Invocation)
    requires call.Heard()
    requires forall reply: Validated :: call.Replied(reply) ==> reply.response.ok
    ensures !call.AnyComplaint()
  {
    hide Invocation.Replied, Invocation.Heard;
  }

  lemma ComplaintIsBridge(call: Invocation, reply: Validated)
    requires call.Replied(reply) && !reply.response.ok
    ensures call.AnyComplaint() && reply.response.error.Some?
    ensures call.Complained(reply.response.error.value)
    ensures OnlyBridge(ComplaintError(reply.response.error.value), call.FailureKind())
  {
    hide OnlyBridge, Concat, RequestOf, ValidRequest, SentinelForCode, KnownCode;
    var complaint := reply.response.error.value;
    assert reply == Validated(reply.response, []);
    CodesAreKnown(complaint.code);
    RaiseIs(1, SentinelForCode(complaint.code).value);
  }

  /** The end of `invoke`, once the child has been heard: only here is a response decoded, and from the whole output. */
  method Conclude(request: Request, process: Process, e: Exchange, ghost call: Invocation)
    returns (result: Result<Validated, Error>)
    requires call.Heard() && call.e == e && request == call.Request()
    requires process == Process(call.Whole(), ExitCode(call.Spawned().ending), None)
    ensures result.Success? ==> call.Completed(result.value)
    ensures result.Failure? ==> forall reply :: !call.Completed(reply)
    ensures result.Failure? && call.Typical() && ForeignExchange(e) ==> OnlyBridge(result.error, call.FailureKind())
  {
    hide OnlyBridge, ForeignExchange, Foreign, DecodeResponse, Invocation.Replied, Invocation.Heard,
         Invocation.AnyComplaint, ValidRequest, RequestOf, Concat, Answers;
    forall reply
      ensures call.Replied(reply) <==>
              && DecodeResponse(process.output, request, e.unmarshal) == Success(reply)
              && process.exitCode == if reply.response.ok then 0 else 1
    {
      DecodedReply(call, reply);
    }
    RaiseIs(0, Protocol);
    var decoded := DecodeResponse(process.output, request, e.unmarshal);
    if decoded.Failure? {
      if call.Typical() && ForeignExchange(e) {
        RefusedReply(call);
      }
      ProtocolFailure(call);
      return Failure(decoded.error);
    }
    var response := decoded.value.response;
    if response.ok {
      if process.exitCode != 0 {
        ProtocolFailure(call);
        return Failure(Raise(Protocol));
      }
      return Success(decoded.value);
    }
    if process.exitCode != 1 {
      ProtocolFailure(call);
      return Failure(Raise(Protocol));
    }
    ComplaintIsBridge(call, decoded.value);
    return Failure(ComplaintError(response.error.value));
  }

  /** A child that was heard but sent no complaint can only have broken the protocol. */
  lemma ProtocolFailure(call: Invocation)
    requires call.Heard()
    requires forall reply :: !call.Replied(reply)
    ensures call.FailureKind() == Protocol
  {
    hide Concat, RequestOf, ValidRequest, Answers;
    NotComplaining(call);
  }
}
