/** `ContextError` (internal/contract/context.go:9-19): a context is what one look at it finds. */
module Contexts {
  import opened Wrappers
  import opened Errors

  datatype Context = Nil | Live | Cancelled | Expired

  function ContextError(ctx: Context): Option<Error> {
    match ctx
    case Nil => Some(Fault(InvalidArgument))
    case Live => None
    case Cancelled => Some(Std(Canceled))
    case Expired => Some(Tag(Timeout, Std(DeadlineExceeded)))
  }

  /** What an operation that is refused for its context answers: never a success, and never another category. */
  ghost predicate EndedBy(ctx: Context, err: Error) {
    match ctx
    case Nil => Exactly(err, InvalidArgument)
    case Cancelled => Is(err, Std(Canceled)) && HasNoCategory(err)
    case Expired => Exactly(err, Timeout) && Is(err, Std(DeadlineExceeded))
    case Live => false
  }

  /** Only a live context lets an operation go on. */
  lemma ContextErrorIsClassified(ctx: Context)
    ensures ContextError(ctx).None? <==> ctx == Live
    ensures ContextError(ctx).Some? ==> EndedBy(ctx, ContextError(ctx).value)
  {
    match ctx
    case Nil => FaultIsExactly(InvalidArgument);
    case Live =>
    case Cancelled =>
    case Expired =>
      forall other: Category
        ensures IsCategory(Tag(Timeout, Std(DeadlineExceeded)), other) <==> other == Timeout
      {
        TagIs(Timeout, Std(DeadlineExceeded), other);
      }
  }
}
