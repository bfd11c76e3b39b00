/** Messages of keyring-winbridge/v1alpha1 and their validation: secure/wsl2/protocol.go and secure/wsl2/errors.go. */
module BridgeProtocol {
  import opened Wrappers
  import opened Errors
  import Base64

  const PROTOCOL_ID := "keyring-winbridge/v1alpha1"
  const BACKEND_NAME := "windows-credential-manager"

  const PROBE := "probe"
  const GET := "get"
  const SET := "set"
  const DELETE := "delete"

  const MAXIMUM_MESSAGE: nat := 0x10_0000
  const MAXIMUM_SECRET: nat := 5 * 512

  datatype Request = Request(
    protocol: string,
    requestId: string,
    operation: string,
    service: string,
    account: string,
    secret: Option<string>)

  /** The `result` object of a response. */
  datatype Fields = Fields(
    helperVersion: string,
    supportedProtocols: Option<seq<string>>,
    backend: string,
    secret: Option<string>,
    deleted: Option<bool>)

  /** The `error` object of a response, Go's `ProtocolError`. */
  datatype Complaint = Complaint(code: string, message: string, retryable: bool, supportedProtocols: seq<string>)

  datatype Response = Response(
    protocol: string,
    requestId: string,
    ok: bool,
    result: Option<Fields>,
    error: Option<Complaint>)

  /** A validated response: Go keeps the decoded secret inside the result. */
  datatype Validated = Validated(response: Response, secret: Bytes)

  /** `fmt.Errorf("%w: text", sentinel)`. */
  function Raise(sentinel: Bridge): Error {
    One(0, Wsl(sentinel))
  }

  function SentinelForCode(code: string): Option<Bridge> {
    if code == "invalid_request" then Some(InvalidRequest)
    else if code == "unsupported_protocol" then Some(UnsupportedProtocol)
    else if code == "unsupported_operation" then Some(UnsupportedOperation)
    else if code == "invalid_argument" then Some(BadArgument)
    else if code == "not_found" then Some(Missing)
    else if code == "access_denied" then Some(AccessDenied)
    else if code == "backend_unavailable" then Some(Unavailable)
    else if code == "backend_failure" then Some(HelperFailure)
    else if code == "timeout" then Some(TimedOut)
    else if code == "internal" then Some(Internal)
    else None
  }

  /** The codes of the protocol. */
  predicate KnownCode(code: string) {
    code in {"invalid_request", "unsupported_protocol", "unsupported_operation", "invalid_argument", "not_found",
             "access_denied", "backend_unavailable", "backend_failure", "timeout", "internal"}
  }

  /** What each code means to a caller of the library. */
  function CodeCategory(code: string): Category {
    match code
    case "not_found" => NotFound
    case "invalid_argument" => InvalidArgument
    case "access_denied" => PermissionDenied
    case "timeout" => Timeout
    case "backend_unavailable" => BackendUnavailable
    case "unsupported_protocol" => Unsupported
    case "unsupported_operation" => Unsupported
    case _ => BackendFailure
  }

  lemma CodesAreKnown(code: string)
    ensures SentinelForCode(code).Some? <==> KnownCode(code)
  {
  }

  /** A `*ProtocolError` as an error: it unwraps to its sentinel when it has one. */
  function ComplaintError(complaint: Complaint): Error {
    match SentinelForCode(complaint.code)
    case Some(sentinel) => One(1, Wsl(sentinel))
    case None => Other(11, true)
  }

  // ---- Requests ----

  function ValidateRequest(request: Request): Option<Error> {
    if request.service == "" && request.operation != PROBE then
      Some(Raise(BadArgument))
    else if '\0' in request.service then
      Some(Raise(BadArgument))
    else if request.account == "" && request.operation != PROBE then
      Some(Raise(BadArgument))
    else if '\0' in request.account then
      Some(Raise(BadArgument))
    else if request.operation == PROBE then
      if request.service != "" || request.account != "" || request.secret.Some? then Some(Raise(Internal)) else None
    else if request.operation == GET || request.operation == DELETE then
      if request.secret.Some? then Some(Raise(Internal)) else None
    else if request.operation == SET then
      if request.secret.None? then Some(Raise(Internal)) else None
    else
      Some(Raise(Internal))
  }

  /** A name the protocol can carry. */
  predicate ValidName(name: string) {
    name != "" && '\0' !in name
  }

  /** The four shapes of request. */
  predicate ValidRequest(request: Request) {
    match request
    case Request(_, _, "probe", "", "", None) => true
    case Request(_, _, "get", service, account, None) => ValidName(service) && ValidName(account)
    case Request(_, _, "delete", service, account, None) => ValidName(service) && ValidName(account)
    case Request(_, _, "set", service, account, Some(_)) => ValidName(service) && ValidName(account)
    case _ => false
  }

  /** Exactly the four shapes pass, and a name that is the only fault is blamed on the caller. */
  lemma RequestsAccepted(request: Request)
    ensures ValidateRequest(request).None? <==> ValidRequest(request)
    ensures request.operation in {GET, SET, DELETE} && (request.operation == SET <==> request.secret.Some?) ==>
              ValidateRequest(request) ==
              if ValidName(request.service) && ValidName(request.account) then None else Some(Raise(BadArgument))
  {
  }

  // ---- Results ----

  const CORRUPT := Other(12, true)

  predicate HasProbeFields(fields: Fields) {
    fields.helperVersion != "" || fields.supportedProtocols.Some? || fields.backend != ""
  }

  function ValidateResult(operation: string, fields: Fields): Result<Bytes, Error> {
    if operation == PROBE then
      if fields.helperVersion == "" || fields.backend != BACKEND_NAME || fields.supportedProtocols.None?
         || PROTOCOL_ID !in fields.supportedProtocols.value || fields.secret.Some? || fields.deleted.Some? then
        Failure(Raise(Protocol))
      else
        Success([])
    else if operation == GET then
      if fields.secret.None? || fields.deleted.Some? || HasProbeFields(fields) then
        Failure(Raise(Protocol))
      else
        match Base64.Decode(true, fields.secret.value)
        case None => Failure(Two(0, Wsl(Protocol), CORRUPT))
        case Some(secret) => if |secret| > MAXIMUM_SECRET then Failure(Raise(Protocol)) else Success(secret)
    else if operation == SET then
      if fields.secret.Some? || fields.deleted.Some? || HasProbeFields(fields) then Failure(Raise(Protocol)) else Success([])
    else if operation == DELETE then
      if fields.deleted.None? || fields.secret.Some? || HasProbeFields(fields) then Failure(Raise(Protocol)) else Success([])
    else
      Failure(Raise(Internal))
  }

  /** The result an operation may carry, and the secret it stands for. */
  predicate ResultShape(operation: string, fields: Fields, secret: Bytes) {
    match fields
    case Fields("", None, "", Some(text), None) => operation == "get" && |secret| <= 2560 && Base64.Encode(secret) == Base64.Strip(text)
    case Fields("", None, "", None, None) => operation == "set" && secret == []
    case Fields("", None, "", None, Some(_)) => operation == "delete" && secret == []
    case Fields(version, Some(protocols), backend, None, None) =>
      operation == "probe" && secret == [] && version != "" && "keyring-winbridge/v1alpha1" in protocols && backend == "windows-credential-manager"
    case _ => false
  }

  /** Exactly the well-shaped results pass; the secret is the one whose encoding was sent, up to line breaks. */
  lemma ResultsAccepted(operation: string, fields: Fields, secret: Bytes)
    ensures ValidateResult(operation, fields) == Success(secret) <==> ResultShape(operation, fields, secret)
  {
    hide Base64.Encode, Base64.Strip, Base64.DecodeGroups;
    if fields.secret.Some? {
      var text := fields.secret.value;
      Base64.StrictAccepts(text);
      if Base64.Decode(true, text).Some? {
        Base64.EncodeOfDecode(text);
      }
      if Base64.Encode(secret) == Base64.Strip(text) {
        Base64.DecodeOfEncodeGroups(true, secret);
      }
    }
  }

  function ValidateComplaint(complaint: Complaint): Option<Error> {
    if complaint.code == "" || complaint.message == "" then
      Some(Raise(Protocol))
    else if SentinelForCode(complaint.code).None? then
      Some(Raise(Protocol))
    else if complaint.code == "unsupported_protocol" then
      if complaint.supportedProtocols == [] then Some(Raise(Protocol)) else None
    else if complaint.supportedProtocols != [] then
      Some(Raise(Protocol))
    else
      None
  }

  predicate ValidComplaint(complaint: Complaint) {
    && KnownCode(complaint.code)
    && complaint.message != ""
    && (complaint.supportedProtocols != [] <==> complaint.code == "unsupported_protocol")
  }

  /** `decodeResponse`; the JSON decoder is a parameter. */
  function DecodeResponse(output: Bytes, request: Request, unmarshal: Bytes -> Result<Response, Error>): Result<Validated, Error> {
    if |output| == 0 then
      Failure(Raise(Protocol))
    else if |output| > MAXIMUM_MESSAGE then
      Failure(Raise(Protocol))
    else
      match unmarshal(output)
      case Failure(err) => Failure(Two(0, Wsl(Protocol), err))
      case Success(response) =>
        if response.protocol != request.protocol then
          Failure(Raise(Protocol))
        else if response.requestId != request.requestId then
          Failure(Raise(Protocol))
        else if response.ok then
          if response.result.None? || response.error.Some? then
            Failure(Raise(Protocol))
          else
            match ValidateResult(request.operation, response.result.value)
            case Failure(err) => Failure(err)
            case Success(secret) => Success(Validated(response, secret))
        else if response.result.Some? || response.error.None? then
          Failure(Raise(Protocol))
        else
          match ValidateComplaint(response.error.value)
          case Some(err) => Failure(err)
          case None => Success(Validated(response, []))
  }

  /** A reply to this very request: correlated, and either a well-shaped result or a known complaint. */
  predicate Answers(request: Request, response: Response, secret: Bytes) {
    && response.protocol == request.protocol
    && response.requestId == request.requestId
    && (response.ok <==> response.result.Some?)
    && (response.ok <==> response.error.None?)
    && if response.ok then ResultShape(request.operation, response.result.value, secret)
       else ValidComplaint(response.error.value) && secret == []
  }

  /** Exactly the replies to the request are accepted. */
  lemma ResponsesAccepted(output: Bytes, request: Request, unmarshal: Bytes -> Result<Response, Error>, reply: Validated)
    ensures DecodeResponse(output, request, unmarshal) == Success(reply) <==>
            0 < |output| <= 1024 * 1024 && unmarshal(output) == Success(reply.response) && Answers(request, reply.response, reply.secret)
  {
    hide ValidateResult, ResultShape, SentinelForCode;
    if unmarshal(output).Success? && unmarshal(output).value.error.Some? {
      CodesAreKnown(unmarshal(output).value.error.value.code);
    }
    if unmarshal(output).Success? && unmarshal(output).value.result.Some? {
      var fields := unmarshal(output).value.result.value;
      ResultsAccepted(request.operation, fields, reply.secret);
    }
  }

  /** Every refusal of a response is a protocol error, for the four operations. */
  lemma RefusalIsProtocol(output: Bytes, request: Request, unmarshal: Bytes -> Result<Response, Error>)
    requires request.operation in {PROBE, GET, SET, DELETE}
    requires DecodeResponse(output, request, unmarshal).Failure?
    ensures var err := DecodeResponse(output, request, unmarshal).error;
            err == Raise(Protocol) || err == Two(0, Wsl(Protocol), CORRUPT)
            || (unmarshal(output).Failure? && err == Two(0, Wsl(Protocol), unmarshal(output).error))
  {
    hide SentinelForCode;
  }
}
