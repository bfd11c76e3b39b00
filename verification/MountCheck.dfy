/** `validateMount` and its search for the nearest existing ancestor: internal/backend/fs/mount_linux.go:68-132. */
module MountCheck {
  import opened Wrappers
  import opened Errors
  import opened Paths
  import opened MountInfo
  import opened MountTable
  import opened MountSelection

  /**
   The `mountEnvironment` interface. Each path is inspected at most once in a run, so that one
   answer per path covers every behaviour of a changing file system.
   */
  datatype Environment = Environment(
    absolute: string -> Result<string, Error>,
    stat: string -> Result<Device, Error>,
    evaluateSymlinks: string -> Result<string, Error>,
    mountInfo: Result<Reader, Error>)

  const NOT_FOUND := Other(3, true)

  /** `mountError`. */
  function MountError(err: Error): Error {
    Tag(InsecureFallback, err)
  }

  lemma MountErrorIs(err: Error)
    ensures IsCategory(MountError(err), InsecureFallback)
    ensures Is(MountError(err), err) || !Comparable(err)
    ensures HasNoCategory(err) ==> Exactly(MountError(err), InsecureFallback)
  {
    forall category: Category
      ensures IsCategory(MountError(err), category) <==> category == InsecureFallback || IsCategory(err, category)
    {
      TagIs(InsecureFallback, err, category);
    }
  }

  /** Errors of the environment carry no portable category of their own. */
  ghost predicate Uncategorised(env: Environment) {
    && (forall path: string :: env.absolute(path).Failure? ==> HasNoCategory(env.absolute(path).error))
    && (forall path: string :: env.stat(path).Failure? ==> HasNoCategory(env.stat(path).error))
    && (forall path: string :: env.evaluateSymlinks(path).Failure? ==> HasNoCategory(env.evaluateSymlinks(path).error))
    && match env.mountInfo
       case Failure(err) => HasNoCategory(err)
       case Success(reader) => reader.failure.Some? ==> HasNoCategory(reader.failure.value)
  }

  /** The wrapping keeps what the cause said about a missing file. */
  lemma MountErrorKeepsMissing(err: Error)
    ensures Is(MountError(err), Std(NotExist)) <==> Is(err, Std(NotExist))
  {
  }

  /** The ancestor with `k` elements. */
  function Ancestor(path: FilePath, k: nat): string
    requires k <= |path.parts|
  {
    Render(path.(parts := path.parts[..k]))
  }

  predicate IsMissing(answer: Result<Device, Error>) {
    answer.Failure? && Is(answer.error, Std(NotExist))
  }

  /** Everything below the ancestor with `k` elements is reported missing. */
  ghost predicate MissingBelow(env: Environment, path: FilePath, k: nat)
    requires k <= |path.parts|
  {
    forall j | k < j <= |path.parts| :: IsMissing(env.stat(Ancestor(path, j)))
  }

  /** The deepest ancestor that exists. */
  ghost predicate Nearest(env: Environment, path: FilePath, k: nat) {
    k <= |path.parts| && MissingBelow(env, path, k) && env.stat(Ancestor(path, k)).Success?
  }

  /** What the search returns when it ends at the ancestor with `k` elements. */
  ghost predicate FoundAt(env: Environment, path: FilePath, k: nat, actual: string, device: Device) {
    && Nearest(env, path, k)
    && env.evaluateSymlinks(Ancestor(path, k)) == Success(actual)
    && env.stat(Ancestor(path, k)) == Success(device)
  }

  /** The search ends in an error that says a file is missing. */
  ghost predicate SearchMissing(root: string, env: Environment) {
    match env.absolute(root)
    case Failure(err) => Is(err, Std(NotExist))
    case Success(absolute) =>
      || AllMissing(env, CleanPath(absolute))
      || exists k: nat :: Nearest(env, CleanPath(absolute), k) && LinkMissing(env, CleanPath(absolute), k)
  }

  /** Not even the root directory is there. */
  ghost predicate AllMissing(env: Environment, path: FilePath) {
    MissingBelow(env, path, 0) && IsMissing(env.stat(Ancestor(path, 0)))
  }

  /** The ancestor disappears between its two inspections. */
  predicate LinkMissing(env: Environment, path: FilePath, k: nat)
    requires k <= |path.parts|
  {
    && env.evaluateSymlinks(Ancestor(path, k)).Failure?
    && Is(env.evaluateSymlinks(Ancestor(path, k)).error, Std(NotExist))
  }

  lemma StatSettles(env: Environment, path: FilePath, j: nat, k: nat)
    requires j <= |path.parts| && k <= |path.parts| && MissingBelow(env, path, j)
    ensures j < k ==> IsMissing(env.stat(Ancestor(path, k)))
  {
  }

  /** At most one ancestor is the nearest existing one. */
  lemma NearestIsUnique(env: Environment, path: FilePath, j: nat, k: nat)
    requires Nearest(env, path, j) && Nearest(env, path, k)
    ensures j == k
  {
    StatSettles(env, path, j, k);
    StatSettles(env, path, k, j);
  }

  lemma AncestorParent(path: FilePath, k: nat)
    requires IsClean(path) && k <= |path.parts|
    ensures k > 0 ==> Dir(Ancestor(path, k)) == Ancestor(path, k - 1) != Ancestor(path, k)
    ensures k == 0 ==> Dir(Ancestor(path, k)) == Ancestor(path, k)
  {
    var here := path.(parts := path.parts[..k]);
    CleanPrefix(path, k);
    DirIsParent(here);
    if k > 0 {
      CleanPrefix(path, k - 1);
      assert Parent(here) == path.(parts := path.parts[..k - 1]);
      RenderInjective(here, Parent(here));
    }
  }

  method NearestExistingPath(root: string, env: Environment) returns (result: Result<(string, Device), Error>)
    ensures result.Success? ==>
              && env.absolute(root).Success?
              && exists k: nat :: FoundAt(env, CleanPath(env.absolute(root).value), k, result.value.0, result.value.1)
    ensures result.Failure? ==>
              && IsCategory(result.error, InsecureFallback)
              && (env.absolute(root).Success? ==>
                    forall k: nat | Nearest(env, CleanPath(env.absolute(root).value), k) ::
                      env.evaluateSymlinks(Ancestor(CleanPath(env.absolute(root).value), k)).Failure?)
    ensures result.Failure? && Uncategorised(env) ==> Exactly(result.error, InsecureFallback)
    ensures result.Success? ==> !SearchMissing(root, env)
    ensures result.Failure? ==> (Is(result.error, Std(NotExist)) <==> SearchMissing(root, env))
  {
    hide CleanPath, Render, IsCategory, Is, Dir, IsClean, Nearest, AllMissing, LinkMissing, MissingBelow, MountError,
         Exactly, HasNoCategory;
    var absolute := env.absolute(root);
    if absolute.Failure? {
      MountErrorIs(absolute.error);
      MountErrorKeepsMissing(absolute.error);
      return Failure(MountError(absolute.error));
    }
    ghost var whole := CleanPath(absolute.value);
    CleanPathIsClean(absolute.value);
    var path := Clean(absolute.value);
    ghost var k: nat := |whole.parts|;
    assert whole.(parts := whole.parts[..k]) == whole;
    NothingBelow(env, whole);
    while true
      invariant k <= |whole.parts| && path == Ancestor(whole, k) && MissingBelow(env, whole, k)
      decreases k
    {
      var status := env.stat(path);
      if status.Success? {
        var actual := env.evaluateSymlinks(path);
        if actual.Failure? {
          MountErrorIs(actual.error);
          MountErrorKeepsMissing(actual.error);
          OnlyNearest(env, whole, k);
          ResolvedAt(env, whole, k);
          return Failure(MountError(actual.error));
        }
        ResolvedAt(env, whole, k);
        OnlyNearest(env, whole, k);
        assert FoundAt(env, whole, k, actual.value, status.value);
        return Success((actual.value, status.value));
      }
      if !Is(status.error, Std(NotExist)) {
        MountErrorIs(status.error);
        MountErrorKeepsMissing(status.error);
        NoneNearest(env, whole, k);
        NotAllMissing(env, whole, k);
        return Failure(MountError(status.error));
      }
      AncestorParent(whole, k);
      var parent := Dir(path);
      if parent == path {
        MountErrorIs(status.error);
        MountErrorKeepsMissing(status.error);
        NoneNearest(env, whole, k);
        EverythingMissing(env, whole, k);
        return Failure(MountError(status.error));
      }
      MissingFurther(env, whole, k);
      k := k - 1;
      path := parent;
    }
  }

  lemma NothingBelow(env: Environment, path: FilePath)
    ensures MissingBelow(env, path, |path.parts|)
  {
  }

  lemma NotAllMissing(env: Environment, path: FilePath, k: nat)
    requires k <= |path.parts| && !IsMissing(env.stat(Ancestor(path, k)))
    ensures !AllMissing(env, path)
  {
  }

  lemma EverythingMissing(env: Environment, path: FilePath, k: nat)
    requires k == 0 && MissingBelow(env, path, k) && IsMissing(env.stat(Ancestor(path, k)))
    ensures AllMissing(env, path)
  {
  }

  lemma MissingFurther(env: Environment, path: FilePath, k: nat)
    requires 0 < k <= |path.parts| && MissingBelow(env, path, k) && IsMissing(env.stat(Ancestor(path, k)))
    ensures MissingBelow(env, path, k - 1)
  {
  }

  /** The ancestor that exists is the nearest one, and what its links resolve to decides. */
  lemma ResolvedAt(env: Environment, path: FilePath, k: nat)
    requires k <= |path.parts| && MissingBelow(env, path, k) && env.stat(Ancestor(path, k)).Success?
    ensures Nearest(env, path, k) && !AllMissing(env, path)
    ensures LinkMissing(env, path, k) <==>
              var actual := env.evaluateSymlinks(Ancestor(path, k));
              actual.Failure? && Is(actual.error, Std(NotExist))
  {
  }

  lemma OnlyNearest(env: Environment, path: FilePath, k: nat)
    requires Nearest(env, path, k)
    ensures forall j: nat | Nearest(env, path, j) :: j == k
  {
    forall j: nat | Nearest(env, path, j)
      ensures j == k
    {
      NearestIsUnique(env, path, j, k);
    }
  }

  /** The search can end without an answer only where no ancestor qualifies. */
  lemma NoneNearest(env: Environment, path: FilePath, k: nat)
    requires k <= |path.parts| && MissingBelow(env, path, k)
    requires env.stat(Ancestor(path, k)).Failure?
    requires k == 0 || !IsMissing(env.stat(Ancestor(path, k)))
    ensures forall j: nat :: !Nearest(env, path, j)
  {
    forall j: nat
      ensures !Nearest(env, path, j)
    {
      if j <= |path.parts| {
        StatSettles(env, path, k, j);
        if MissingBelow(env, path, j) {
          StatSettles(env, path, j, k);
        }
      }
    }
  }

  /** The mount that the program picks for a path it found is not DrvFS. */
  ghost predicate Permitted(mounts: seq<Mount>, actual: string, device: Device) {
    exists k | 0 <= k < |mounts| :: Chosen(mounts, actual, device, k) && !OnWindows(mounts[k])
  }

  predicate Readable(mountInfo: Result<Reader, Error>) {
    mountInfo.Success? && mountInfo.value.failure.None? && ParseText(mountInfo.value.text).Some?
  }

  /** Exactly what lets a fallback root through. */
  ghost predicate Acceptable(root: string, env: Environment) {
    && env.absolute(root).Success?
    && Readable(env.mountInfo)
    && exists k: nat, actual: string, device: Device ::
         && FoundAt(env, CleanPath(env.absolute(root).value), k, actual, device)
         && Permitted(ParseText(env.mountInfo.value.text).value, actual, device)
  }

  lemma FoundIsUnique(env: Environment, path: FilePath, j: nat, k: nat, a: (string, Device), b: (string, Device))
    requires FoundAt(env, path, j, a.0, a.1) && FoundAt(env, path, k, b.0, b.1)
    ensures a == b
  {
    NearestIsUnique(env, path, j, k);
  }

  lemma ChosenIsUnique(mounts: seq<Mount>, path: string, device: Device, j: nat, k: nat)
    requires Chosen(mounts, path, device, j) && Chosen(mounts, path, device, k)
    ensures j == k
  {
    hide PathWithinMount;
  }

  /** The search succeeds. */
  ghost predicate Located(root: string, env: Environment) {
    && env.absolute(root).Success?
    && exists k: nat, actual: string, device: Device ::
         FoundAt(env, CleanPath(env.absolute(root).value), k, actual, device)
  }

  /** The mount table cannot be opened, or breaks off, because a file is missing. */
  predicate TableMissing(mountInfo: Result<Reader, Error>) {
    match mountInfo
    case Failure(err) => Is(err, Std(NotExist))
    case Success(reader) =>
      reader.failure.Some? && ParseText(reader.text).Some? && Is(reader.failure.value, Std(NotExist))
  }

  /** Exactly what makes a refusal look like a missing file. */
  ghost predicate LooksMissing(root: string, env: Environment) {
    SearchMissing(root, env) || (Located(root, env) && TableMissing(env.mountInfo))
  }

  /** A fallback root is let through exactly when it is acceptable; every refusal is an insecure-fallback error. */
  method ValidateMount(root: string, env: Environment) returns (refusal: Option<Error>)
    ensures refusal.None? <==> Acceptable(root, env)
    ensures refusal.Some? ==> IsCategory(refusal.value, InsecureFallback)
    ensures refusal.Some? && Uncategorised(env) ==> Exactly(refusal.value, InsecureFallback)
    ensures LooksMissing(root, env) <==> refusal.Some? && Is(refusal.value, Std(NotExist))
  {
    hide IsCategory, Is, FoundAt, Nearest, Chosen, ParseText, OnWindows, CleanPath, SearchMissing, MountError, Exactly, HasNoCategory;
    OwnErrorsPlain();
    var found := NearestExistingPath(root, env);
    if found.Failure? {
      NotFoundNotAcceptable(root, env);
      NotLocated(root, env);
      return Some(found.error);
    }
    var (actual, device) := found.value;
    ghost var whole := CleanPath(env.absolute(root).value);
    ghost var depth: nat :| FoundAt(env, whole, depth, actual, device);
    if env.mountInfo.Failure? {
      MountErrorIs(env.mountInfo.error);
      MountErrorKeepsMissing(env.mountInfo.error);
      return Some(MountError(env.mountInfo.error));
    }
    var parsed := ParseMountInfo(env.mountInfo.value);
    OwnErrorsNotMissing();
    if parsed.Failure? {
      MountErrorIs(parsed.error);
      MountErrorKeepsMissing(parsed.error);
      return Some(MountError(parsed.error));
    }
    AcceptableIsPermitted(root, env, depth, actual, device);
    var selected := SelectMount(parsed.value, actual, device);
    if selected.None? {
      MountErrorIs(NOT_FOUND);
      MountErrorKeepsMissing(NOT_FOUND);
      NoneChosen(parsed.value, actual, device);
      return Some(MountError(NOT_FOUND));
    }
    ghost var best :| 0 <= best < |parsed.value| && Chosen(parsed.value, actual, device, best) && selected.value == parsed.value[best];
    PermittedIsChosen(parsed.value, actual, device, best);
    var foreign := IsDrvFS(selected.value);
    if foreign {
      FaultIs(InsecureFallback);
      FaultIsExactly(InsecureFallback);
      return Some(Fault(InsecureFallback));
    }
    return None;
  }

  /** The errors that the check makes itself say nothing about a missing file. */
  lemma OwnErrorsNotMissing()
    ensures !Is(TOO_LONG, Std(NotExist)) && !Is(MALFORMED, Std(NotExist)) && !Is(NOT_FOUND, Std(NotExist))
    ensures !Is(Fault(InsecureFallback), Std(NotExist))
  {
  }

  lemma OwnErrorsPlain()
    ensures HasNoCategory(TOO_LONG) && HasNoCategory(MALFORMED) && HasNoCategory(NOT_FOUND)
  {
  }

  lemma NotLocated(root: string, env: Environment)
    requires env.absolute(root).Success? ==>
               forall k: nat | Nearest(env, CleanPath(env.absolute(root).value), k) ::
                 env.evaluateSymlinks(Ancestor(CleanPath(env.absolute(root).value), k)).Failure?
    ensures !Located(root, env)
  {
    hide CleanPath, Nearest;
  }

  lemma FaultIs(category: Category)
    ensures IsCategory(Fault(category), category)
  {
    assert Is(Portable(category), Portable(category));
  }

  lemma NotFoundNotAcceptable(root: string, env: Environment)
    requires env.absolute(root).Success? ==>
               forall k: nat | Nearest(env, CleanPath(env.absolute(root).value), k) ::
                 env.evaluateSymlinks(Ancestor(CleanPath(env.absolute(root).value), k)).Failure?
    ensures !Acceptable(root, env)
  {
    hide Permitted, CleanPath;
  }

  lemma AcceptableIsPermitted(root: string, env: Environment, depth: nat, actual: string, device: Device)
    requires env.absolute(root).Success? && Readable(env.mountInfo)
    requires FoundAt(env, CleanPath(env.absolute(root).value), depth, actual, device)
    ensures Acceptable(root, env) <==> Permitted(ParseText(env.mountInfo.value.text).value, actual, device)
  {
    hide FoundAt, Permitted, CleanPath;
    var whole := CleanPath(env.absolute(root).value);
    if Acceptable(root, env) {
      var k: nat, other, place :|
        FoundAt(env, whole, k, other, place) && Permitted(ParseText(env.mountInfo.value.text).value, other, place);
      FoundIsUnique(env, whole, depth, k, (actual, device), (other, place));
    }
  }

  lemma NoneChosen(mounts: seq<Mount>, path: string, device: Device)
    requires forall i | 0 <= i < |mounts| :: !Candidate(mounts[i], path, device)
    ensures !Permitted(mounts, path, device)
  {
    hide Candidate, OnWindows;
  }

  lemma PermittedIsChosen(mounts: seq<Mount>, path: string, device: Device, k: nat)
    requires Chosen(mounts, path, device, k)
    ensures Permitted(mounts, path, device) <==> !OnWindows(mounts[k])
  {
    hide Chosen, OnWindows;
    if Permitted(mounts, path, device) {
      var j: nat :| j < |mounts| && Chosen(mounts, path, device, j) && !OnWindows(mounts[j]);
      ChosenIsUnique(mounts, path, device, j, k);
    }
    assert Chosen(mounts, path, device, k) ==> k < |mounts| by {
      ChosenInRange(mounts, path, device, k);
    }
  }

  lemma ChosenInRange(mounts: seq<Mount>, path: string, device: Device, k: nat)
    ensures Chosen(mounts, path, device, k) ==> k < |mounts|
  {
    hide Candidate;
  }

  /**
   The whole check against the kernel's table: for a table printed from any records, and an existing
   ancestor whose real path is clean and absolute, the root is let through exactly when some record
   governs that path and does not describe DrvFS.
   */
  lemma PrintedTableDecides(root: string, env: Environment, records: seq<Record>, k: nat, actual: FilePath, device: Device)
    requires PrintableTable(records)
    requires env.mountInfo == Success(Reader(PrintTable(records), None))
    requires env.absolute(root).Success?
    requires FoundAt(env, CleanPath(env.absolute(root).value), k, Render(actual), device)
    requires IsClean(actual) && actual.rooted
    ensures Acceptable(root, env) <==>
            exists i | 0 <= i < |records| :: Governs(MountsOf(records), actual, device, i) && !OnWindows(records[i].Mounted())
  {
    hide FoundAt, PrintableTable, Governs, Chosen, OnWindows, ParseText, PrintTable, IsClean, CleanPath, Render, IsCleanText;
    var mounts := MountsOf(records);
    ParseOfPrintTable(records);
    AcceptableIsPermitted(root, env, k, Render(actual), device);
    ParsedPointsAreClean(PrintTable(records));
    forall i: nat
      ensures Chosen(mounts, Render(actual), device, i) <==> Governs(mounts, actual, device, i)
    {
      ChosenGoverns(mounts, actual, device, i);
    }
  }

  /** A WSL2 drive is refused: a 9p record whose options hold one for DrvFS, in any spelling and at any place. */
  lemma WindowsTableRefused(
    root: string, env: Environment, records: seq<Record>, k: nat, actual: FilePath, device: Device, i: nat,
    before: seq<string>, option: string, after: seq<string>)
    requires PrintableTable(records)
    requires env.mountInfo == Success(Reader(PrintTable(records), None))
    requires env.absolute(root).Success?
    requires FoundAt(env, CleanPath(env.absolute(root).value), k, Render(actual), device)
    requires IsClean(actual) && actual.rooted
    requires i < |records| && Governs(MountsOf(records), actual, device, i)
    requires records[i].filesystem == "9p"
    requires records[i].superOptions == Texts.Join(before + [option] + after, ',') && Texts.Free(option, ',')
    requires Spells(option, "aname=drvfs") || (|option| >= 12 && Spells(option[..12], "aname=drvfs;"))
    ensures !Acceptable(root, env)
  {
    hide FoundAt, PrintableTable, Governs, PrintTable, IsClean, CleanPath, Render, Acceptable, Texts.Join, Texts.Free, Spells;
    PrintedTableDecides(root, env, records, k, actual, device);
    assert OnWindows(records[i].Mounted());
    forall j | 0 <= j < |records| && Governs(MountsOf(records), actual, device, j)
      ensures j == i
    {
      OneGoverns(MountsOf(records), actual, device, i, j);
    }
  }

  /** Any other governing record lets the root through. */
  lemma OtherTableAllowed(
    root: string, env: Environment, records: seq<Record>, k: nat, actual: FilePath, device: Device, i: nat)
    requires PrintableTable(records)
    requires env.mountInfo == Success(Reader(PrintTable(records), None))
    requires env.absolute(root).Success?
    requires FoundAt(env, CleanPath(env.absolute(root).value), k, Render(actual), device)
    requires IsClean(actual) && actual.rooted
    requires i < |records| && Governs(MountsOf(records), actual, device, i)
    requires !SpellsDrvFS(records[i].filesystem) && !SpellsDrvFS(records[i].source)
    requires records[i].filesystem == "9p" ==>
      forall before: seq<string>, option: string, after: seq<string> ::
        records[i].superOptions == Texts.Join(before + [option] + after, ',') && Texts.Free(option, ',') ==>
          !Spells(option, "aname=drvfs") && !(|option| >= 12 && Spells(option[..12], "aname=drvfs;"))
    ensures Acceptable(root, env)
  {
    hide FoundAt, PrintableTable, Governs, PrintTable, IsClean, CleanPath, Render, Acceptable, Texts.Join, Texts.Free,
         Spells, SpellsDrvFS;
    PrintedTableDecides(root, env, records, k, actual, device);
    assert !OnWindows(records[i].Mounted());
  }
}
