/** Against a helper that behaves as a map, any run of bridge operations behaves as that map. */
module BridgeRefinement {
  import opened Wrappers
  import opened Errors
  import opened Contexts
  import opened BridgeErrors
  import opened BridgeProtocol
  import opened BridgeClient
  import opened BridgeKeyring
  import opened LimitedBuffers
  import Base64

  datatype Call = Fetch(account: string) | Store(account: string, secret: Bytes) | Remove(account: string)

  datatype Reply = Got(secret: Bytes) | Done | Refused(category: Category)

  /** What the helper holds: the text it was sent, by service and account. */
  type Table = map<(string, string), string>

  /** What the client means: the secret, by service and account. */
  type Model = map<(string, string), Bytes>

  /** The helper holds the encoding of every secret. */
  ghost predicate Represents(table: Table, model: Model) {
    && table.Keys == model.Keys
    && forall key <- model :: table[key] == Base64.Encode(model[key]) && |model[key]| <= MAXIMUM_SECRET
  }

  predicate IsMissing(response: Response) {
    !response.ok && response.result.None? && response.error.Some? && response.error.value.code == "not_found"
    && response.error.value.message != "" && response.error.value.supportedProtocols == []
  }

  predicate IsResult(response: Response, fields: Fields) {
    response.ok && response.error.None? && response.result == Some(fields)
  }

  /** A map answering one request: its response, its exit status and what it holds afterwards. */
  ghost predicate MapAnswers(request: Request, response: Response, ending: Ending, before: Table, after: Table) {
    var key := (request.service, request.account);
    && response.protocol == request.protocol
    && response.requestId == request.requestId
    && ending == (if response.ok then Exited else ExitedWith(1))
    && match request.operation
       case "get" =>
         && after == before
         && if key in before then IsResult(response, Fields("", None, "", Some(before[key]), None)) else IsMissing(response)
       case "set" =>
         && request.secret.Some?
         && after == before[key := request.secret.value]
         && IsResult(response, Fields("", None, "", None, None))
       case _ =>
         && after == before - {key}
         && if key in before then IsResult(response, Fields("", None, "", None, Some(true)))
            else IsResult(response, Fields("", None, "", None, Some(false))) || IsMissing(response)
  }

  function InvocationOf(client: Client, call: Call, e: Exchange): Invocation {
    match call
    case Fetch(account) => GetCall(client, account, e)
    case Store(account, secret) => SetCall(client, account, secret, e)
    case Remove(account) => DeleteCall(client, account, e)
  }

  predicate Oversized(call: Call) {
    call.Store? && |call.secret| > MAXIMUM_SECRET
  }

  /** One undisturbed exchange with the map: whatever is sent is answered, whatever is not sent changes nothing. */
  ghost predicate Honest(client: Client, call: Call, e: Exchange, before: Table, after: Table) {
    var invocation := InvocationOf(client, call, e);
    && e.parent == Live && e.during == Quiet && ForeignExchange(e)
    && e.requestId.Success? && e.requestId.value != ""
    && (invocation.Formed() ==> e.marshal(invocation.Request()).Success?)
    && if invocation.Sent() && !Oversized(call) then
         && 0 < |invocation.Whole()| <= MAXIMUM_MESSAGE
         && e.unmarshal(invocation.Whole()).Success?
         && MapAnswers(invocation.Request(), e.unmarshal(invocation.Whole()).value, invocation.Spawned().ending, before, after)
       else
         after == before
  }

  /** Whether the encoded request is within the message limit. */
  predicate Fits(client: Client, call: Call, e: Exchange) {
    InvocationOf(client, call, e).Sent()
  }

  /** What the map answers, and what it is afterwards. */
  function Expected(service: string, call: Call, fits: bool, model: Model): (Reply, Model) {
    var key := (service, call.account);
    if Oversized(call) then
      (Refused(ValueTooLarge), model)
    else if !ValidName(call.account) then
      (Refused(InvalidArgument), model)
    else if !fits then
      (Refused(ValueTooLarge), model)
    else
      match call
      case Fetch(_) => (if key in model then Got(model[key]) else Refused(NotFound), model)
      case Store(_, secret) => (Done, model[key := secret])
      case Remove(_) => (if key in model then Done else Refused(NotFound), model - {key})
  }

  /** The result of an operation says what the map says. */
  ghost predicate Agrees(result: Result<Option<Bytes>, Error>, reply: Reply) {
    match reply
    case Got(secret) => result == Success(Some(secret))
    case Done => result == Success(None)
    case Refused(category) => result.Failure? && Exactly(result.error, category)
  }

  /** A client that `New` can have returned. */
  predicate Usable(client: Client) {
    client.Configured() && ValidName(client.service)
  }

  /** Which requests of the operations can be formed. */
  lemma FormedExactly(client: Client, call: Call, e: Exchange)
    requires Usable(client) && e.requestId.Success? && e.requestId.value != ""
    ensures InvocationOf(client, call, e).Formed() <==> ValidName(call.account)
    ensures InvocationOf(client, call, e).Typical()
  {
    hide Base64.Encode;
  }

  /** What is sent unanswered or not at all fails for its own reason. */
  lemma UnsentKind(client: Client, call: Call, e: Exchange)
    requires Usable(client) && e.requestId.Success? && e.requestId.value != "" && e.during == Quiet
    requires InvocationOf(client, call, e).Formed() ==> e.marshal(InvocationOf(client, call, e).Request()).Success?
    requires !InvocationOf(client, call, e).Sent()
    ensures InvocationOf(client, call, e).FailureKind() == if ValidName(call.account) then TooLarge else BadArgument
  {
    hide Base64.Encode, ValidRequest, RequestOf;
    FormedExactly(client, call, e);
  }

  lemma NotSentNotCompleted(call: Invocation)
    requires !call.Sent()
    ensures forall reply :: !call.Completed(reply)
  {
  }

  /** Answering with a well-shaped result completes the invocation. */
  lemma ResultCompletes(call: Invocation, fields: Fields, secret: Bytes)
    requires call.Sent() && call.e.during == Quiet
    requires 0 < |call.Whole()| <= MAXIMUM_MESSAGE && call.e.unmarshal(call.Whole()).Success?
    requires call.Spawned().ending == Exited
    requires var response := call.e.unmarshal(call.Whole()).value;
             && response.protocol == call.Request().protocol && response.requestId == call.Request().requestId
             && IsResult(response, fields)
    requires ResultShape(call.operation, fields, secret)
    ensures var reply := Validated(call.e.unmarshal(call.Whole()).value, secret);
            && call.Completed(reply)
            && forall other :: call.Completed(other) ==> other == reply
  {
    hide ResultShape, ValidRequest, Concat;
    CompletedOnce(call, Validated(call.e.unmarshal(call.Whole()).value, secret));
  }

  /** Answering that nothing is there fails with exactly that. */
  lemma MissingFails(call: Invocation)
    requires call.Sent() && call.e.during == Quiet
    requires 0 < |call.Whole()| <= MAXIMUM_MESSAGE && call.e.unmarshal(call.Whole()).Success?
    requires call.Spawned().ending == ExitedWith(1)
    requires var response := call.e.unmarshal(call.Whole()).value;
             && response.protocol == call.Request().protocol && response.requestId == call.Request().requestId
             && IsMissing(response)
    ensures call.FailureKind() == Missing
    ensures forall reply :: !call.Completed(reply)
  {
    hide ResultShape, ValidRequest, Concat, RequestOf;
    assert call.AnyComplaint();
  }

  lemma EncodedShape(secret: Bytes)
    requires |secret| <= MAXIMUM_SECRET
    ensures ResultShape(GET, Fields("", None, "", Some(Base64.Encode(secret)), None), secret)
  {
    Base64.EncodeHasNoBreaks(secret);
    Base64.StripNothing(Base64.Encode(secret));
  }

  /** A failure of an honest exchange reports exactly the category of its kind. */
  lemma HonestCategory(call: Invocation, err: Error)
    requires call.e.parent == Live && call.e.during == Quiet && ForeignExchange(call.e)
    requires Classified(call, err, FailureCategory(call))
    ensures Exactly(err, CategoryOf(call.FailureKind()))
  {
    hide ForeignExchange, Exactly, FailureCategory, Invocation.FailureKind, Invocation.Sent, PortableError;
    KindIsCategory(call);
  }

  method ServeFetch(client: Client, account: string, e: Exchange, ghost before: Table, ghost after: Table, ghost model: Model)
    returns (result: Result<Option<Bytes>, Error>)
    requires Usable(client) && Honest(client, Fetch(account), e, before, after) && Represents(before, model)
    ensures var expected := Expected(client.service, Fetch(account), Fits(client, Fetch(account), e), model);
            Agrees(result, expected.0) && Represents(after, expected.1)
  {
    hide ForeignExchange, Classified, Exactly, ResultShape, ValidRequest, Answers, Invocation.FailureKind, Invocation.Completed,
         Invocation.AnyComplaint, Base64.Encode, RequestOf, Concat;
    ghost var call := GetCall(client, account, e);
    ghost var key := (client.service, account);
    FormedExactly(client, Fetch(account), e);
    if !call.Sent() {
      UnsentKind(client, Fetch(account), e);
      NotSentNotCompleted(call);
    } else {
      RequestNames(call);
      if key in before {
        EncodedShape(model[key]);
        ResultCompletes(call, Fields("", None, "", Some(before[key]), None), model[key]);
      } else {
        MissingFails(call);
      }
    }
    var got := Get(client, account, e);
    if got.Failure? {
      HonestCategory(call, got.error);
      return Failure(got.error);
    }
    return Success(Some(got.value));
  }

  lemma RequestNames(call: Invocation)
    requires call.Sent()
    ensures call.Request().operation == call.operation && call.Request().secret == call.secret
    ensures call.operation != PROBE ==> call.Request().service == call.client.service && call.Request().account == call.account
  {
  }

  method ServeStore(client: Client, account: string, secret: Bytes, e: Exchange, ghost before: Table, ghost after: Table, ghost model: Model)
    returns (result: Result<Option<Bytes>, Error>)
    requires Usable(client) && Honest(client, Store(account, secret), e, before, after) && Represents(before, model)
    ensures var expected := Expected(client.service, Store(account, secret), Fits(client, Store(account, secret), e), model);
            Agrees(result, expected.0) && Represents(after, expected.1)
  {
    hide ForeignExchange, Classified, Exactly, ResultShape, ValidRequest, Answers, Invocation.FailureKind, Invocation.Completed,
         Invocation.AnyComplaint, Base64.Encode, RequestOf, Concat;
    ghost var call := SetCall(client, account, secret, e);
    FormedExactly(client, Store(account, secret), e);
    if |secret| <= MAXIMUM_SECRET {
      if !call.Sent() {
        UnsentKind(client, Store(account, secret), e);
        NotSentNotCompleted(call);
      } else {
        RequestNames(call);
        SetShape();
        ResultCompletes(call, Fields("", None, "", None, None), []);
      }
    }
    var failure := Set(client, account, secret, e);
    if failure.Some? {
      if |secret| <= MAXIMUM_SECRET {
        HonestCategory(call, failure.value);
      }
      return Failure(failure.value);
    }
    return Success(None);
  }

  lemma SetShape()
    ensures ResultShape(SET, Fields("", None, "", None, None), [])
    ensures forall deleted: bool :: ResultShape(DELETE, Fields("", None, "", None, Some(deleted)), [])
  {
  }

  method ServeRemove(client: Client, account: string, e: Exchange, ghost before: Table, ghost after: Table, ghost model: Model)
    returns (result: Result<Option<Bytes>, Error>)
    requires Usable(client) && Honest(client, Remove(account), e, before, after) && Represents(before, model)
    ensures var expected := Expected(client.service, Remove(account), Fits(client, Remove(account), e), model);
            Agrees(result, expected.0) && Represents(after, expected.1)
  {
    hide ForeignExchange, Classified, Exactly, ResultShape, ValidRequest, Answers, Invocation.FailureKind, Invocation.Completed,
         Invocation.AnyComplaint, Base64.Encode, RequestOf, Concat;
    ghost var call := DeleteCall(client, account, e);
    ghost var key := (client.service, account);
    FormedExactly(client, Remove(account), e);
    if !call.Sent() {
      UnsentKind(client, Remove(account), e);
      NotSentNotCompleted(call);
    } else {
      RequestNames(call);
      SetShape();
      var response := e.unmarshal(call.Whole()).value;
      if response.ok {
        ResultCompletes(call, response.result.value, []);
      } else {
        MissingFails(call);
      }
    }
    var failure := Delete(client, account, e);
    if failure.Some? {
      if !NothingDeleted(call) {
        HonestCategory(call, failure.value);
      }
      return Failure(failure.value);
    }
    return Success(None);
  }

  /** The replies the map gives to a whole run of calls. */
  function Replies(service: string, calls: seq<Call>, fits: seq<bool>, model: Model): seq<Reply>
    requires |fits| == |calls|
    decreases |calls|
  {
    if calls == [] then []
    else [Expected(service, calls[0], fits[0], model).0] + Replies(service, calls[1..], fits[1..], Expected(service, calls[0], fits[0], model).1)
  }

  function Finally(service: string, calls: seq<Call>, fits: seq<bool>, model: Model): Model
    requires |fits| == |calls|
    decreases |calls|
  {
    if calls == [] then model else Finally(service, calls[1..], fits[1..], Expected(service, calls[0], fits[0], model).1)
  }

  /** Which of the requests fit into a message. */
  function FitsAll(client: Client, calls: seq<Call>, exchanges: seq<Exchange>): (fits: seq<bool>)
    requires |exchanges| == |calls|
    ensures |fits| == |calls|
    decreases |calls|
  {
    if calls == [] then [] else [Fits(client, calls[0], exchanges[0])] + FitsAll(client, calls[1..], exchanges[1..])
  }

  /** A whole run against the map: every result is the map's reply, and the map ends as it should. */
  method ServeAll(client: Client, calls: seq<Call>, exchanges: seq<Exchange>, ghost tables: seq<Table>, ghost model: Model)
    returns (results: seq<Result<Option<Bytes>, Error>>)
    requires Usable(client)
    requires |exchanges| == |calls| && |tables| == |calls| + 1
    requires forall i | 0 <= i < |calls| :: Honest(client, calls[i], exchanges[i], tables[i], tables[i + 1])
    requires Represents(tables[0], model)
    ensures |results| == |calls|
    ensures var replies := Replies(client.service, calls, FitsAll(client, calls, exchanges), model);
            |replies| == |calls| && forall i | 0 <= i < |calls| :: Agrees(results[i], replies[i])
    ensures Represents(tables[|calls|], Finally(client.service, calls, FitsAll(client, calls, exchanges), model))
    decreases |calls|
  {
    hide Honest, Represents, Expected, Agrees, Usable, Fits;
    if calls == [] {
      return [];
    }
    assert Honest(client, calls[0], exchanges[0], tables[0], tables[1]);
    var result;
    match calls[0] {
      case Fetch(account) => result := ServeFetch(client, account, exchanges[0], tables[0], tables[1], model);
      case Store(account, secret) => result := ServeStore(client, account, secret, exchanges[0], tables[0], tables[1], model);
      case Remove(account) => result := ServeRemove(client, account, exchanges[0], tables[0], tables[1], model);
    }
    ghost var next := Expected(client.service, calls[0], Fits(client, calls[0], exchanges[0]), model).1;
    var rest := ServeAll(client, calls[1..], exchanges[1..], tables[1..], next);
    results := [result] + rest;
  }
}
