/** The in-memory keyring of secure/fake/keyring.go: the map every backend stands for. */
module FakeKeyring {
  import opened Wrappers
  import opened Errors
  import opened Contexts
  import opened Program

  datatype Request =
    | Fetch(service: string, key: string)
    | Store(service: string, key: string, value: Bytes)
    | Remove(service: string, key: string)

  type Table = map<(string, string), Bytes>

  function Entry(request: Request): (string, string) {
    (request.service, request.key)
  }

  /** What a map does with a request. */
  function Step(table: Table, request: Request): (Table, Reply) {
    match request
    case Fetch(_, _) =>
      (table, if Entry(request) in table then Value(table[Entry(request)]) else Rejected(Portable(NotFound)))
    case Store(_, _, value) => (table[Entry(request) := value], Stored)
    case Remove(_, _) =>
      if Entry(request) in table then
        (table - {Entry(request)}, Stored)
      else
        (table, Rejected(Portable(NotFound)))
  }

  function Run(table: Table, requests: seq<Request>): (replies: seq<Reply>)
    ensures |replies| == |requests|
    decreases |requests|
  {
    if requests == [] then
      []
    else
      var (next, reply) := Step(table, requests[0]);
      [reply] + Run(next, requests[1..])
  }

  const DEFAULT_SERVICE := "fake"

  class Keyring {
    var err: Option<Error>
    var service: string
    var storage: Table

    constructor ()
      ensures err == None && service == "" && storage == map[]
    {
      err, service, storage := None, "", map[];
    }

    function Name(username: string): (string, string)
      reads this
    {
      (if service == "" then DEFAULT_SERVICE else service, username)
    }

    method Init()
      modifies this`service
      ensures service == if old(service) == "" then DEFAULT_SERVICE else old(service)
    {
      if service == "" {
        service := DEFAULT_SERVICE;
      }
    }

    method Get(ctx: Context, username: string) returns (reply: Reply)
      modifies this`service
      ensures reply == if ContextError(ctx).Some? then
                         Rejected(ContextError(ctx).value)
                       else if err.Some? then
                         Rejected(err.value)
                       else
                         Step(storage, Fetch(old(Name(username)).0, username)).1
    {
      var problem := ContextError(ctx);
      if problem.Some? {
        return Rejected(problem.value);
      }
      Init();
      if err.Some? {
        return Rejected(err.value);
      }
      if Name(username) !in storage {
        return Rejected(Portable(NotFound));
      }
      return Value(storage[Name(username)]);
    }

    method Set(ctx: Context, username: string, password: Bytes) returns (reply: Reply)
      modifies this`service, this`storage
      ensures if ContextError(ctx).Some? then
                reply == Rejected(ContextError(ctx).value) && storage == old(storage)
              else if err.Some? then
                reply == Rejected(err.value) && storage == old(storage)
              else
                (storage, reply) == Step(old(storage), Store(old(Name(username)).0, username, password))
    {
      var problem := ContextError(ctx);
      if problem.Some? {
        return Rejected(problem.value);
      }
      Init();
      if err.Some? {
        return Rejected(err.value);
      }
      storage := storage[Name(username) := password];
      return Stored;
    }

    method Delete(ctx: Context, username: string) returns (reply: Reply)
      modifies this`service, this`storage
      ensures if ContextError(ctx).Some? then
                reply == Rejected(ContextError(ctx).value) && storage == old(storage)
              else if err.Some? then
                reply == Rejected(err.value) && storage == old(storage)
              else
                (storage, reply) == Step(old(storage), Remove(old(Name(username)).0, username))
    {
      var problem := ContextError(ctx);
      if problem.Some? {
        return Rejected(problem.value);
      }
      Init();
      if err.Some? {
        return Rejected(err.value);
      }
      if Name(username) !in storage {
        return Rejected(Portable(NotFound));
      }
      storage := storage - {Name(username)};
      return Stored;
    }
  }
}
