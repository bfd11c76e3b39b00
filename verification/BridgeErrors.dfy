/** `portableError` (secure/wsl2/keyring.go:139-168): from the bridge's sentinels to one portable category. */
module BridgeErrors {
  import opened Wrappers
  import opened Errors

  /** An error from outside the bridge: it carries nothing that the bridge's classification looks for. */
  ghost predicate Foreign(err: Error) {
    && (forall category: Category :: !Is(err, Portable(category)))
    && (forall sentinel: Bridge :: !Is(err, Wsl(sentinel)))
    && !Is(err, Std(Canceled))
    && !Is(err, Std(DeadlineExceeded))
  }

  /** The error stands for exactly one sentinel of the bridge and for no portable category. */
  ghost predicate OnlyBridge(err: Error, sentinel: Bridge) {
    && (forall category: Category :: !Is(err, Portable(category)))
    && (forall other: Bridge :: Is(err, Wsl(other)) <==> other == sentinel)
    && !Is(err, Std(Canceled))
    && (Is(err, Std(DeadlineExceeded)) ==> sentinel == TimedOut)
  }

  /** The category chosen for an error that is not a cancellation. */
  function ChosenCategory(err: Error): Category {
    if Is(err, Std(DeadlineExceeded)) || Is(err, Wsl(TimedOut)) then Timeout
    else if Is(err, Wsl(Missing)) then NotFound
    else if Is(err, Wsl(BadArgument)) then InvalidArgument
    else if Is(err, Wsl(TooLarge)) then ValueTooLarge
    else if Is(err, Wsl(Unavailable)) then BackendUnavailable
    else if Is(err, Wsl(AccessDenied)) then PermissionDenied
    else if Is(err, Wsl(UnsupportedProtocol)) || Is(err, Wsl(UnsupportedOperation)) || Is(err, Wsl(NotWSL2)) then Unsupported
    else BackendFailure
  }

  function PortableError(err: Error): Error {
    if Is(err, Std(Canceled)) then err else Tag(ChosenCategory(err), err)
  }

  /** The portable meaning of each sentinel. */
  function CategoryOf(sentinel: Bridge): Category {
    match sentinel
    case NotWSL2 => Unsupported
    case InvalidRequest => BackendFailure
    case UnsupportedProtocol => Unsupported
    case UnsupportedOperation => Unsupported
    case BadArgument => InvalidArgument
    case Missing => NotFound
    case AccessDenied => PermissionDenied
    case Unavailable => BackendUnavailable
    case HelperFailure => BackendFailure
    case TimedOut => Timeout
    case Internal => BackendFailure
    case TooLarge => ValueTooLarge
    case Protocol => BackendFailure
  }

  /** What a portable error matches: the chosen category and whatever the error matched before. */
  lemma PortableErrorMatches(err: Error, category: Category)
    ensures IsCategory(PortableError(err), category) <==>
            IsCategory(err, category) || (!Is(err, Std(Canceled)) && category == ChosenCategory(err))
  {
    TagIs(ChosenCategory(err), err, category);
  }

  /** An error with a single sentinel gets exactly the category of that sentinel. */
  lemma PortableErrorOfSentinel(err: Error, sentinel: Bridge)
    requires OnlyBridge(err, sentinel)
    ensures Exactly(PortableError(err), CategoryOf(sentinel))
  {
    hide Is, Tag;
    OnlyBridgeMatches(err, sentinel);
    forall category: Category
      ensures IsCategory(PortableError(err), category) <==> category == CategoryOf(sentinel)
    {
      PortableErrorMatches(err, category);
    }
  }

  lemma OnlyBridgeMatches(err: Error, sentinel: Bridge)
    requires OnlyBridge(err, sentinel)
    ensures ChosenCategory(err) == CategoryOf(sentinel)
  {
    hide Is, IsCategory;
  }

  lemma RaiseIs(id: nat, sentinel: Bridge)
    ensures OnlyBridge(One(id, Wsl(sentinel)), sentinel)
  {
    var err := One(id, Wsl(sentinel));
    forall category: Category
      ensures !IsCategory(err, category)
    {
      assert !Is(Wsl(sentinel), Portable(category));
    }
    forall other: Bridge
      ensures Is(err, Wsl(other)) <==> other == sentinel
    {
      assert Is(Wsl(sentinel), Wsl(other)) <==> other == sentinel;
    }
    assert !Is(Wsl(sentinel), Std(Canceled)) && !Is(Wsl(sentinel), Std(DeadlineExceeded));
  }

  lemma TwoIs(id: nat, first: Error, second: Error, target: Error)
    requires !target.Two?
    ensures Is(Two(id, first, second), target) <==> Is(first, target) || Is(second, target)
  {
  }

  /** Wrapping a foreign cause under a sentinel adds nothing to it. */
  lemma RaiseOver(sentinel: Bridge, cause: Error)
    requires Foreign(cause)
    ensures OnlyBridge(Two(0, Wsl(sentinel), cause), sentinel)
  {
    hide Is;
    var err := Two(0, Wsl(sentinel), cause);
    forall target: Error | target.Portable? || target.Wsl? || target.Std?
      ensures Is(err, target) <==> Is(Wsl(sentinel), target) || Is(cause, target)
    {
      TwoIs(0, Wsl(sentinel), cause, target);
    }
    LeafIs(sentinel);
  }

  lemma LeafIs(sentinel: Bridge)
    ensures forall target: Error | target.Portable? || target.Std? || target.Wsl? ::
              Is(Wsl(sentinel), target) <==> target == Wsl(sentinel)
  {
  }

  /** Running out of time is exactly a timeout although it also carries the context's own error. */
  lemma RaiseOverdue()
    ensures OnlyBridge(Two(0, Wsl(TimedOut), Std(DeadlineExceeded)), TimedOut)
  {
    hide Is;
    var err := Two(0, Wsl(TimedOut), Std(DeadlineExceeded));
    forall target: Error | target.Portable? || target.Wsl? || target.Std?
      ensures Is(err, target) <==> Is(Wsl(TimedOut), target) || Is(Std(DeadlineExceeded), target)
    {
      TwoIs(0, Wsl(TimedOut), Std(DeadlineExceeded), target);
    }
    LeafIs(TimedOut);
    StandardIs(DeadlineExceeded);
  }

  lemma StandardIs(standard: Standard)
    ensures forall target: Error | target.Portable? || target.Std? || target.Wsl? ::
              Is(Std(standard), target) <==> target == Std(standard)
  {
  }

  /** Describing an error without a category changes nothing about it. */
  lemma AnnotateIs(err: Error, target: Error)
    requires !target.One?
    ensures Is(Annotate(err), target) <==> Is(err, target)
  {
  }

  lemma AnnotateOnlyBridge(err: Error, sentinel: Bridge)
    requires OnlyBridge(err, sentinel)
    ensures OnlyBridge(Annotate(err), sentinel)
  {
    hide Is;
    forall target: Error | target.Portable? || target.Wsl? || target.Std?
      ensures Is(Annotate(err), target) <==> Is(err, target)
    {
      AnnotateIs(err, target);
    }
  }

  /** Cancellation passes through unclassified. */
  lemma CancellationHasNoCategory()
    ensures PortableError(Std(Canceled)) == Std(Canceled)
    ensures HasNoCategory(Std(Canceled))
  {
  }

  /** A deadline that had already passed is a timeout and nothing else. */
  lemma ExpiredIsTimeout()
    ensures Exactly(PortableError(Tag(Timeout, Std(DeadlineExceeded))), Timeout)
    ensures Is(Tag(Timeout, Std(DeadlineExceeded)), Std(DeadlineExceeded))
  {
    hide Is;
    var err := Tag(Timeout, Std(DeadlineExceeded));
    TwoIs(0, Portable(Timeout), Std(DeadlineExceeded), Std(DeadlineExceeded));
    TwoIs(0, Portable(Timeout), Std(DeadlineExceeded), Std(Canceled));
    StandardIs(DeadlineExceeded);
    PortableIs(Timeout);
    forall category: Category
      ensures IsCategory(PortableError(err), category) <==> category == Timeout
    {
      TwoIs(0, Portable(Timeout), Std(DeadlineExceeded), Portable(category));
      PortableErrorMatches(err, category);
    }
  }

  lemma PortableIs(category: Category)
    ensures forall target: Error | target.Portable? || target.Std? || target.Wsl? ::
              Is(Portable(category), target) <==> target == Portable(category)
  {
  }

  /** A nil context is classified twice over: as an invalid argument and as a backend failure. */
  lemma NilContextMatchesTwo()
    ensures IsCategory(PortableError(Fault(InvalidArgument)), InvalidArgument)
    ensures IsCategory(PortableError(Fault(InvalidArgument)), BackendFailure)
    ensures forall category: Category :: !Exactly(PortableError(Fault(InvalidArgument)), category)
  {
    hide Is;
    var err := Fault(InvalidArgument);
    PortableIs(InvalidArgument);
    forall target: Error | target.Portable? || target.Wsl? || target.Std?
      ensures Is(err, target) <==> target == Portable(InvalidArgument)
    {
      AnnotateIs(Portable(InvalidArgument), target);
    }
    PortableErrorMatches(err, InvalidArgument);
    PortableErrorMatches(err, BackendFailure);
  }
}
