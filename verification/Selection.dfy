/** Backend selection and its error: internal/selection/selection.go and internal/contract/selection.go. */
module Selection {
  import opened Wrappers
  import opened Errors
  import opened Contexts

  type Backend = string

  /** A refused candidate; Go allows a rejection without an error. */
  datatype Rejection = Rejection(backend: Backend, err: Option<Error>)

  datatype SelectionError = SelectionError(rejected: seq<Rejection>, cause: Option<Error>)

  /** `errors.Is` where the error may be nil; the target is not. */
  predicate IsOption(err: Option<Error>, target: Error) {
    err.Some? && Is(err.value, target)
  }

  predicate AnyIs(errs: seq<Error>, target: Error) {
    exists i | 0 <= i < |errs| :: Is(errs[i], target)
  }

  predicate AnyRejectionIs(rejected: seq<Rejection>, target: Error) {
    exists i | 0 <= i < |rejected| :: IsOption(rejected[i].err, target)
  }

  lemma AnyIsSnoc(errs: seq<Error>, err: Error, target: Error)
    ensures AnyIs(errs + [err], target) <==> AnyIs(errs, target) || Is(err, target)
  {
    hide Is;
    if AnyIs(errs, target) {
      var i :| 0 <= i < |errs| && Is(errs[i], target);
      assert (errs + [err])[i] == errs[i];
    }
    assert (errs + [err])[|errs|] == err;
  }

  lemma AnyRejectionSnoc(rejected: seq<Rejection>, rejection: Rejection, target: Error)
    ensures AnyRejectionIs(rejected + [rejection], target) <==> AnyRejectionIs(rejected, target) || IsOption(rejection.err, target)
  {
    hide IsOption;
    if AnyRejectionIs(rejected, target) {
      var i :| 0 <= i < |rejected| && IsOption(rejected[i].err, target);
      assert (rejected + [rejection])[i] == rejected[i];
    }
    assert (rejected + [rejection])[|rejected|] == rejection;
  }

  /** What the list unwrapped so far matches: the cause and every rejection seen. */
  ghost predicate Covers(errs: seq<Error>, cause: Option<Error>, rejected: seq<Rejection>) {
    forall target :: AnyIs(errs, target) <==> IsOption(cause, target) || AnyRejectionIs(rejected, target)
  }

  lemma CoversMore(errs: seq<Error>, cause: Option<Error>, rejected: seq<Rejection>, rejection: Rejection)
    requires Covers(errs, cause, rejected)
    ensures rejection.err.Some? ==> Covers(errs + [rejection.err.value], cause, rejected + [rejection])
    ensures rejection.err.None? || IsOption(cause, rejection.err.value) ==> Covers(errs, cause, rejected + [rejection])
  {
    hide Is, AnyIs, AnyRejectionIs;
    forall target
      ensures rejection.err.Some? ==>
                (AnyIs(errs + [rejection.err.value], target) <==>
                 IsOption(cause, target) || AnyRejectionIs(rejected + [rejection], target))
      ensures rejection.err.None? || IsOption(cause, rejection.err.value) ==>
                (AnyIs(errs, target) <==> IsOption(cause, target) || AnyRejectionIs(rejected + [rejection], target))
    {
      AnyRejectionSnoc(rejected, rejection, target);
      if rejection.err.Some? {
        AnyIsSnoc(errs, rejection.err.value, target);
        if IsOption(cause, rejection.err.value) && Is(rejection.err.value, target) {
          IsTransitive(cause.value, rejection.err.value, target);
        }
      }
    }
  }

  /** The errors of the rejections that the cause does not already match, in order. */
  function Kept(cause: Option<Error>, rejected: seq<Rejection>): seq<Error> {
    if rejected == [] then
      []
    else
      var last := rejected[|rejected| - 1].err;
      Kept(cause, rejected[..|rejected| - 1])
      + if last.Some? && !IsOption(cause, last.value) then [last.value] else []
  }

  function CauseList(cause: Option<Error>): seq<Error> {
    if cause.Some? then [cause.value] else []
  }

  function Unwrapped(e: SelectionError): seq<Error> {
    CauseList(e.cause) + Kept(e.cause, e.rejected)
  }

  /** A selection error as the standard library walks it. */
  function ErrorOf(e: SelectionError): Error {
    Many(0, Unwrapped(e))
  }

  /** Dropping the rejections that the cause already matches loses no match. */
  lemma {:induction false} KeptCovers(cause: Option<Error>, rejected: seq<Rejection>)
    ensures Covers(CauseList(cause) + Kept(cause, rejected), cause, rejected)
  {
    hide Covers, IsOption;
    CoversCause(cause);
    if rejected == [] {
      assert CauseList(cause) + [] == CauseList(cause);
    } else {
      var first, last := rejected[..|rejected| - 1], rejected[|rejected| - 1];
      KeptCovers(cause, first);
      CoversMore(CauseList(cause) + Kept(cause, first), cause, first, last);
      assert rejected == first + [last];
      if last.err.Some? && !IsOption(cause, last.err.value) {
        assert CauseList(cause) + Kept(cause, rejected) == CauseList(cause) + Kept(cause, first) + [last.err.value];
      } else {
        assert Kept(cause, rejected) == Kept(cause, first);
      }
    }
  }

  /** `SelectionError.Unwrap`. */
  method Unwrap(e: SelectionError) returns (errorsList: seq<Error>)
    ensures errorsList == Unwrapped(e)
    ensures forall target :: AnyIs(errorsList, target) <==> IsOption(e.cause, target) || AnyRejectionIs(e.rejected, target)
    ensures e.cause.Some? ==> errorsList != [] && errorsList[0] == e.cause.value
    ensures |errorsList| <= |e.rejected| + 1
  {
    hide Is, AnyIs, AnyRejectionIs, IsOption;
    errorsList := [];
    if e.cause.Some? {
      errorsList := errorsList + [e.cause.value];
    }
    assert e.rejected[..0] == [];
    for i := 0 to |e.rejected|
      invariant errorsList == CauseList(e.cause) + Kept(e.cause, e.rejected[..i])
      invariant |errorsList| <= i + 1
    {
      var rejection := e.rejected[i];
      assert e.rejected[..i + 1][..i] == e.rejected[..i];
      if rejection.err.Some? && !IsOption(e.cause, rejection.err.value) {
        errorsList := errorsList + [rejection.err.value];
      }
    }
    assert e.rejected[..|e.rejected|] == e.rejected;
    KeptCovers(e.cause, e.rejected);
  }

  lemma CoversCause(cause: Option<Error>)
    ensures Covers(CauseList(cause), cause, [])
  {
    hide Is;
    forall target
      ensures AnyIs(CauseList(cause), target) <==> IsOption(cause, target)
    {
      if cause.Some? {
        assert [cause.value][0] == cause.value;
      }
    }
  }

  /** A selection error matches itself, its cause, its rejections and nothing else. */
  lemma SelectionErrorMatches(e: SelectionError, target: Error)
    ensures Is(ErrorOf(e), target) <==>
            target == ErrorOf(e) || IsOption(e.cause, target) || AnyRejectionIs(e.rejected, target)
  {
    hide AnyRejectionIs, IsOption, Unwrapped;
    KeptCovers(e.cause, e.rejected);
    UnwrappedIs(e);
    assert AnyIs(Unwrapped(e), target) <==> exists i | 0 <= i < |Unwrapped(e)| :: Is(Unwrapped(e)[i], target);
  }

  lemma UnwrappedIs(e: SelectionError)
    ensures Unwrapped(e) == CauseList(e.cause) + Kept(e.cause, e.rejected)
  {
  }

  // ---- Selection ----

  datatype Info = Info(backend: Backend, details: string, fallback: bool, rejected: seq<Rejection>)

  /** What an opener returns. */
  datatype Outcome<K> = Opened(keyring: K, info: Info) | Refused(err: Error)

  /**
   The registry and what its openers do: the answer to the n-th call, whichever candidate it is for,
   so that one candidate may answer differently when asked again.
   */
  class Registry<K> {
    const known: set<Backend>
    const answer: nat -> Outcome<K>
    var calls: seq<Backend>

    constructor (known: set<Backend>, answer: nat -> Outcome<K>)
      ensures this.known == known && this.answer == answer && calls == []
    {
      this.known, this.answer, calls := known, answer, [];
    }

    method Open(backend: Backend) returns (outcome: Outcome<K>)
      requires backend in known
      modifies this
      ensures calls == old(calls) + [backend]
      ensures outcome == answer(|old(calls)|)
    {
      outcome := answer(|calls|);
      calls := calls + [backend];
    }
  }

  const NOT_REGISTERED := Fault(Unsupported)

  /** A candidate without an opener is refused as unsupported, and as nothing else. */
  lemma NotRegisteredIsUnsupported()
    ensures Exactly(NOT_REGISTERED, Unsupported)
    ensures forall category :: category != Unsupported ==> !IsCategory(NOT_REGISTERED, category)
  {
    FaultIsExactly(Unsupported);
  }

  /** The registered ones among some candidates: whose openers run when all are tried. */
  function Tried(order: seq<Backend>, known: set<Backend>): seq<Backend> {
    if order == [] then []
    else
      var last := order[|order| - 1];
      Tried(order[..|order| - 1], known) + if last in known then [last] else []
  }

  /** How the candidate after some others fares. */
  function Verdict<K>(order: seq<Backend>, k: nat, known: set<Backend>, answer: nat -> Outcome<K>): Outcome<K>
    requires k < |order|
  {
    if order[k] in known then answer(|Tried(order[..k], known)|) else Refused(NOT_REGISTERED)
  }

  /**
   Every candidate before the k-th was reached with a live context and passed over: it has no
   opener, or its opener says that the backend is unavailable or unsupported.
   */
  ghost predicate AllRefused<K>(contexts: nat -> Context, order: seq<Backend>, k: nat, known: set<Backend>, answer: nat -> Outcome<K>)
    requires k <= |order|
  {
    forall i: nat | i < k ::
      && contexts(i) == Live
      && Verdict(order, i, known, answer).Refused?
      && (|| IsCategory(Verdict(order, i, known, answer).err, BackendUnavailable)
          || IsCategory(Verdict(order, i, known, answer).err, Unsupported))
  }

  /** The rejections list the first candidates, in order, each with its own refusal. */
  ghost predicate ListsRefusals<K>(rejected: seq<Rejection>, order: seq<Backend>, known: set<Backend>, answer: nat -> Outcome<K>)
    requires |rejected| <= |order|
  {
    forall i | 0 <= i < |rejected| ::
      && Verdict(order, i, known, answer).Refused?
      && rejected[i] == Rejection(order[i], Some(Verdict(order, i, known, answer).err))
  }

  lemma TriedSnoc(order: seq<Backend>, k: nat, known: set<Backend>)
    requires k < |order|
    ensures Tried(order[..k + 1], known) == Tried(order[..k], known) + if order[k] in known then [order[k]] else []
  {
    assert order[..k + 1][..k] == order[..k];
  }

  lemma TriedNothing(known: set<Backend>)
    ensures Tried([], known) == []
  {
  }

  /** The openers that ran when selection stopped at the k-th candidate. */
  ghost predicate RanUpTo(calls: seq<Backend>, order: seq<Backend>, k: nat, known: set<Backend>, included: bool)
    requires k <= |order|
  {
    calls == Tried(order[..k], known) + if included && k < |order| then [order[k]] else []
  }

  /** How selection ends at the k-th candidate. */
  ghost predicate EndsAt<K>(contexts: nat -> Context, order: seq<Backend>, k: nat, known: set<Backend>, answer: nat -> Outcome<K>,
                            calls: seq<Backend>, result: Result<(K, Info), SelectionError>)
  {
    && k <= |order|
    && AllRefused(contexts, order, k, known, answer)
    && if k == |order| then
         && RanUpTo(calls, order, k, known, false)
         && result.Failure?
         && |result.error.rejected| == k && ListsRefusals(result.error.rejected, order, known, answer)
         && result.error.cause == Some(Portable(BackendUnavailable))
       else if contexts(k) != Live then
         && RanUpTo(calls, order, k, known, false)
         && result.Failure?
         && |result.error.rejected| == k && ListsRefusals(result.error.rejected, order, known, answer)
         && result.error.cause.Some? && EndedBy(contexts(k), result.error.cause.value)
       else
         && order[k] in known
         && RanUpTo(calls, order, k, known, true)
         && match Verdict(order, k, known, answer)
            case Opened(keyring, info) =>
              && result.Success? && result.value.0 == keyring
              && |result.value.1.rejected| == k && ListsRefusals(result.value.1.rejected, order, known, answer)
              && result.value.1 == info.(fallback := info.fallback || k > 0, rejected := result.value.1.rejected)
            case Refused(err) =>
              && !IsCategory(err, BackendUnavailable) && !IsCategory(err, Unsupported)
              && result.Failure?
              && |result.error.rejected| == k + 1 && ListsRefusals(result.error.rejected, order, known, answer)
              && result.error.cause == Some(err)
  }

  /**
   `SelectBackend`, for any order, with repeats, and a context that may end between candidates:
   `contexts` is what each look at it finds.
   */
  method SelectBackend<K>(contexts: nat -> Context, order: seq<Backend>, registry: Registry<K>)
    returns (result: Result<(K, Info), SelectionError>)
    requires registry.calls == []
    modifies registry
    ensures exists k: nat :: EndsAt(contexts, order, k, registry.known, registry.answer, registry.calls, result)
  {
    hide ContextError, EndedBy, Tried, Is, Exactly;
    var rejected: seq<Rejection> := [];
    NotRegisteredIsUnsupported();
    LiveOnly();
    assert order[..0] == [] && Tried([], registry.known) == [] by {
      TriedNothing(registry.known);
    }
    for k := 0 to |order|
      invariant AllRefused(contexts, order, k, registry.known, registry.answer)
      invariant |rejected| == k && ListsRefusals(rejected, order, registry.known, registry.answer)
      invariant registry.calls == Tried(order[..k], registry.known)
    {
      var backend := order[k];
      TriedSnoc(order, k, registry.known);
      var ended := ContextError(contexts(k));
      if ended.Some? {
        result := Failure(SelectionError(rejected, ended));
        assert EndsAt(contexts, order, k, registry.known, registry.answer, registry.calls, result);
        return;
      }
      if backend !in registry.known {
        rejected := rejected + [Rejection(backend, Some(NOT_REGISTERED))];
        continue;
      }
      var outcome := registry.Open(backend);
      if outcome.Opened? {
        var info := outcome.info.(fallback := outcome.info.fallback || rejected != [], rejected := rejected);
        result := Success((outcome.keyring, info));
        assert EndsAt(contexts, order, k, registry.known, registry.answer, registry.calls, result);
        return;
      }
      rejected := rejected + [Rejection(backend, Some(outcome.err))];
      if !IsCategory(outcome.err, BackendUnavailable) && !IsCategory(outcome.err, Unsupported) {
        result := Failure(SelectionError(rejected, Some(outcome.err)));
        assert EndsAt(contexts, order, k, registry.known, registry.answer, registry.calls, result);
        return;
      }
    }
    assert order[..|order|] == order;
    result := Failure(SelectionError(rejected, Some(Portable(BackendUnavailable))));
    assert EndsAt(contexts, order, |order|, registry.known, registry.answer, registry.calls, result);
  }

  lemma LiveOnly()
    ensures forall ctx :: ContextError(ctx).None? <==> ctx == Live
    ensures forall ctx :: ctx != Live ==> EndedBy(ctx, ContextError(ctx).value)
  {
    forall ctx
      ensures ctx != Live ==> EndedBy(ctx, ContextError(ctx).value)
    {
      ContextErrorIsClassified(ctx);
    }
  }

  lemma TriedBefore<K>(contexts: nat -> Context, order: seq<Backend>, j: nat, k: nat, known: set<Backend>, answer: nat -> Outcome<K>)
    requires j < k <= |order| && AllRefused(contexts, order, k, known, answer)
    ensures contexts(j) == Live && PassedOver(order, j, known, answer)
  {
    NotRegisteredIsUnsupported();
  }

  /** The candidate has no opener, or its opener refuses with one of the two categories that let selection go on. */
  ghost predicate PassedOver<K>(order: seq<Backend>, i: nat, known: set<Backend>, answer: nat -> Outcome<K>)
    requires i < |order|
  {
    || order[i] !in known
    || match answer(|Tried(order[..i], known)|)
       case Opened(_, _) => false
       case Refused(err) => IsCategory(err, BackendUnavailable) || IsCategory(err, Unsupported)
  }

  /**
   Of the candidates that selection came to with a live context, those it passed over are exactly
   those without an opener and those refused as unavailable or unsupported. The first refusal for
   another reason ends it, and is what the failure matches.
   */
  lemma PassedOverExactly<K>(contexts: nat -> Context, order: seq<Backend>, k: nat, known: set<Backend>, answer: nat -> Outcome<K>,
                             calls: seq<Backend>, result: Result<(K, Info), SelectionError>, i: nat)
    requires EndsAt(contexts, order, k, known, answer, calls, result)
    requires i <= k && i < |order| && contexts(i) == Live
    ensures i < k <==> PassedOver(order, i, known, answer)
    ensures !PassedOver(order, i, known, answer) ==>
              match answer(|Tried(order[..i], known)|)
              case Opened(keyring, _) => result.Success? && result.value.0 == keyring
              case Refused(err) => result.Failure? && result.error.cause == Some(err) && Keeps(ErrorOf(result.error), err)
  {
    hide Is, IsCategory, Tried, RanUpTo, ListsRefusals, ErrorOf, Keeps, EndedBy;
    if i < k {
      TriedBefore(contexts, order, i, k, known, answer);
    } else if !PassedOver(order, i, known, answer) && Verdict(order, i, known, answer).Refused? {
      CauseKept(result.error);
    }
  }

  lemma CauseKept(e: SelectionError)
    ensures e.cause.Some? ==> Keeps(ErrorOf(e), e.cause.value)
  {
    hide Is, AnyRejectionIs, ErrorOf;
    forall target
      ensures IsOption(e.cause, target) ==> Is(ErrorOf(e), target)
    {
      SelectionErrorMatches(e, target);
    }
  }

  /** The outcome is determined: selection can end in one place only. */
  lemma EndsOnce<K>(contexts: nat -> Context, order: seq<Backend>, j: nat, k: nat, known: set<Backend>, answer: nat -> Outcome<K>,
                    calls: seq<Backend>, result: Result<(K, Info), SelectionError>, other: Result<(K, Info), SelectionError>)
    requires EndsAt(contexts, order, j, known, answer, calls, result)
    requires EndsAt(contexts, order, k, known, answer, calls, other)
    ensures j == k
  {
    hide IsCategory, RanUpTo, ListsRefusals, EndedBy;
    if j < k {
      TriedBefore(contexts, order, j, k, known, answer);
    } else if k < j {
      TriedBefore(contexts, order, k, j, known, answer);
    }
  }

  /** What a caller can rely on after success: the candidates passed over were unavailable or unsupported, and it is told so. */
  lemma SuccessMeansEarlierRefused<K>(contexts: nat -> Context, order: seq<Backend>, k: nat, known: set<Backend>, answer: nat -> Outcome<K>,
                                      calls: seq<Backend>, result: Result<(K, Info), SelectionError>)
    requires EndsAt(contexts, order, k, known, answer, calls, result) && result.Success?
    ensures var info := result.value.1;
            && |info.rejected| == k < |order|
            && (info.rejected != [] ==> info.fallback)
            && forall i | 0 <= i < k ::
                 && info.rejected[i].backend == order[i]
                 && info.rejected[i].err.Some?
                 && (|| IsCategory(info.rejected[i].err.value, BackendUnavailable)
                     || IsCategory(info.rejected[i].err.value, Unsupported))
  {
    hide IsCategory, RanUpTo, Verdict, EndedBy;
    forall i: nat | i < k
      ensures result.value.1.rejected[i].err.Some?
      ensures || IsCategory(result.value.1.rejected[i].err.value, BackendUnavailable)
              || IsCategory(result.value.1.rejected[i].err.value, Unsupported)
    {
      RefusedBefore(contexts, order, i, k, known, answer);
    }
  }

  lemma RefusedBefore<K>(contexts: nat -> Context, order: seq<Backend>, j: nat, k: nat, known: set<Backend>, answer: nat -> Outcome<K>)
    requires j < k <= |order| && AllRefused(contexts, order, k, known, answer)
    ensures Verdict(order, j, known, answer).Refused?
    ensures || IsCategory(Verdict(order, j, known, answer).err, BackendUnavailable)
            || IsCategory(Verdict(order, j, known, answer).err, Unsupported)
  {
  }

  /** Running out of candidates is reported as an unavailable backend. */
  lemma ExhaustionIsUnavailable<K>(contexts: nat -> Context, order: seq<Backend>, known: set<Backend>, answer: nat -> Outcome<K>,
                                   calls: seq<Backend>, result: Result<(K, Info), SelectionError>)
    requires EndsAt(contexts, order, |order|, known, answer, calls, result)
    ensures IsCategory(ErrorOf(result.error), BackendUnavailable)
  {
    hide AnyIs, AnyRejectionIs, RanUpTo, ListsRefusals, AllRefused, ErrorOf;
    SelectionErrorMatches(result.error, Portable(BackendUnavailable));
  }
}
