/**
 Error values and the matching relation of Go's `errors.Is`.

 An error is a tree. `errors.Is(err, target)` walks it and compares every node with the target
 (only when the target's type is comparable), asks a node's own `Is` method where it has one
 (`syscall.Errno` is the only such type here), and descends into what the node unwraps to.
 */
module Errors {

  /** The portable categories of internal/contract/errors.go. */
  datatype Category =
    | NotFound
    | InvalidArgument
    | ValueTooLarge
    | BackendUnavailable
    | BackendLocked
    | InteractionRequired
    | PermissionDenied
    | Timeout
    | InsecureFallback
    | Unsupported
    | BackendFailure

  /** Sentinels of the Go standard library. */
  datatype Standard = Canceled | DeadlineExceeded | NotExist | Exist | Permission | ShortWrite | ExecNotFound

  /** The sentinels of secure/wsl2/errors.go; `ErrHelperNotFound` is a wrapping of `Unavailable`. */
  datatype Bridge =
    | NotWSL2
    | InvalidRequest
    | UnsupportedProtocol
    | UnsupportedOperation
    | BadArgument
    | Missing
    | AccessDenied
    | Unavailable
    | HelperFailure
    | TimedOut
    | Internal
    | TooLarge
    | Protocol

  datatype SystemNumber = ENOENT | EEXIST | ENOTEMPTY | EACCES | EPERM | ELOOP | ENOTDIR | EISDIR | OtherNumber(n: int)

  /** Node identities (`id`) tell apart values that Go compares by pointer. */
  datatype Error =
    | Portable(category: Category)
    | Std(standard: Standard)
    | Wsl(bridge: Bridge)
    | Errno(number: SystemNumber)
    | Other(id: nat, comparable: bool)
    | One(id: nat, cause: Error)
    | Two(id: nat, first: Error, second: Error)
    | Many(id: nat, causes: seq<Error>)

  predicate Comparable(target: Error) {
    target.Other? ==> target.comparable
  }

  /** The `Is` method of `syscall.Errno`. */
  predicate NumberIs(number: SystemNumber, target: Error) {
    match target
    case Std(NotExist) => number == ENOENT
    case Std(Exist) => number == EEXIST || number == ENOTEMPTY
    case Std(Permission) => number == EACCES || number == EPERM
    case _ => false
  }

  /** `errors.Is` on two non-nil errors. */
  predicate Is(err: Error, target: Error)
    decreases err
  {
    || (Comparable(target) && err == target)
    || match err
       case Errno(number) => NumberIs(number, target)
       case One(_, cause) => Is(cause, target)
       case Two(_, first, second) => Is(first, target) || Is(second, target)
       case Many(_, causes) => exists i | 0 <= i < |causes| :: Is(causes[i], target)
       case _ => false
  }

  predicate IsCategory(err: Error, category: Category) {
    Is(err, Portable(category))
  }

  /** The error matches this portable category and no other. */
  ghost predicate Exactly(err: Error, category: Category) {
    forall other: Category :: IsCategory(err, other) <==> other == category
  }

  /** The error matches no portable category. */
  ghost predicate HasNoCategory(err: Error) {
    forall category: Category :: !IsCategory(err, category)
  }

  /** The error matches everything its cause matches. */
  ghost predicate Keeps(err: Error, cause: Error) {
    forall target: Error :: Is(cause, target) ==> Is(err, target)
  }

  /** `fmt.Errorf("...: %w", cause)`. */
  function Annotate(cause: Error): Error {
    One(0, cause)
  }

  /** `fmt.Errorf("%w: ...: %w", category, cause)`. */
  function Tag(category: Category, cause: Error): Error {
    Two(0, Portable(category), cause)
  }

  /** `fmt.Errorf("%w: text", category)`. */
  function Fault(category: Category): Error {
    One(0, Portable(category))
  }

  /** `errors.Join` of two non-nil errors. */
  function Join(first: Error, second: Error): Error {
    Two(0, first, second)
  }

  /** A tagged error matches its category and whatever its cause matches. */
  lemma TagIs(tag: Category, cause: Error, category: Category)
    ensures IsCategory(Tag(tag, cause), category) <==> tag == category || IsCategory(cause, category)
  {
    assert Is(Portable(tag), Portable(category)) <==> tag == category;
  }

  /** A system error carries no category of its own. */
  lemma NumberIsPlain(number: SystemNumber, category: Category)
    ensures !IsCategory(Errno(number), category)
  {
  }

  /** Tagging a system error gives it exactly the tag. */
  lemma TaggedNumber(tag: Category, number: SystemNumber, category: Category)
    ensures IsCategory(Tag(tag, Errno(number)), category) <==> tag == category
  {
    NumberIsPlain(number, category);
    TagIs(tag, Errno(number), category);
  }

  lemma FaultIsExactly(tag: Category)
    ensures Exactly(Fault(tag), tag)
  {
    forall other: Category
      ensures IsCategory(Fault(tag), other) <==> other == tag
    {
      assert Is(Portable(tag), Portable(other)) <==> tag == other;
    }
  }

  /** Matching is transitive: what a matched target matches, the error matches too. */
  lemma {:induction false} IsTransitive(a: Error, b: Error, c: Error)
    requires Is(a, b)
    requires Is(b, c)
    ensures Is(a, c)
    decreases a
  {
    if a != b {
      match a
      case One(_, cause) => IsTransitive(cause, b, c);
      case Two(_, first, second) =>
        if Is(first, b) {
          IsTransitive(first, b, c);
        } else {
          IsTransitive(second, b, c);
        }
      case Many(_, causes) =>
        var i :| 0 <= i < |causes| && Is(causes[i], b);
        IsTransitive(causes[i], b, c);
      case _ =>
    }
  }
}
