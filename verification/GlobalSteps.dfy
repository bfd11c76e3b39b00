/** What one call does to the state that all operations share: durability, frozen files, the view. */
module GlobalSteps {
  import opened Wrappers
  import opened Errors
  import opened Filesystem
  import opened Program
  import opened Invariants
  import opened LinuxSystem
  import opened Machine
  import opened Threads
  import opened Guarantees
  import opened Interference
  import opened OwnSteps
  import opened WriteSteps
  import Layout

  lemma WritersStayAway(fs: Fs, after: Fs, op: Op, point: Point, inode: Inode)
    requires Guarantee(fs, after, op, point)
    requires inode != fs.nextInode && Unwritten(fs, inode)
    ensures Unwritten(after, inode)
  {
    hide PathFor, TouchedTemporary, TemporaryInode, Owns, Binding, Candidates;
  }

  /** What a credential name may lead to after the call was there before, or is the temporary being renamed. */
  lemma CandidateOrigin(fs: Fs, after: Fs, op: Op, point: Point, path: Path, binding: Option<Inode>)
    requires Guarantee(fs, after, op, point) && RightKind(op, point)
    requires Layout.IsCredentialName(path.name) && binding in Candidates(after, path) && binding.Some?
    ensures binding in Candidates(fs, path)
         || (point.AtRename? && path == PathFor(op) && binding == TemporaryInode(fs, op, point))
  {
    hide PathFor, TemporaryInode, Owns, Binding, Candidates, Unwritten;
  }

  /** The temporary being renamed is complete, synced and closed. */
  lemma RenamedComplete(fs: Fs, op: Op, point: Point)
    requires point.AtRename? && op.Set? && HoldsTemporary(fs, op, point) && HoldsContent(fs, op, point)
    ensures TemporaryInode(fs, op, point).Some?
    ensures var inode := TemporaryInode(fs, op, point).value;
            inode in fs.nodes && inode in fs.synced && Content(fs, inode) == op.value && Unwritten(fs, inode)
  {
  }

  lemma NotTheTemporary(fs: Fs, op: Op, point: Point, path: Path, binding: Option<Inode>)
    requires RightKind(op, point) && HoldsTemporary(fs, op, point)
    requires Layout.IsCredentialName(path.name) && binding in Candidates(fs, path) && binding.Some?
    ensures TemporaryInode(fs, op, point) != binding
  {
    hide Layout.IsCredentialName;
  }

  lemma StaysDurable(
    fs: Fs, after: Fs, written: set<(Path, Bytes)>, op: Op, point: Point, path: Path, binding: Option<Inode>)
    requires Consistent(fs) && Durable(fs, written) && Guarantee(fs, after, op, point)
    requires RightKind(op, point) && HoldsTemporary(fs, op, point) && HoldsContent(fs, op, point)
    requires op.Set? ==> (PathFor(op), op.value) in written
    requires Layout.IsCredentialName(path.name) && binding in Candidates(after, path) && binding.Some?
    ensures binding.value in after.nodes && binding.value in after.synced && Unwritten(after, binding.value)
    ensures (path, Content(after, binding.value)) in written
  {
    hide Consistent, PathFor, RightKind, HoldsTemporary, HoldsContent, TemporaryInode, Owns, Binding, Candidates,
         Unwritten, TouchedTemporary, Layout.IsCredentialName;
    BindingsAreCandidates(fs);
    CandidateOrigin(fs, after, op, point, path, binding);
    if binding in Candidates(fs, path) {
      NotTheTemporary(fs, op, point, path, binding);
    } else {
      RenamesAreSets(op, point);
      RenamedComplete(fs, op, point);
    }
    WritersStayAway(fs, after, op, point, binding.value);
  }

  lemma RenamesAreSets(op: Op, point: Point)
    requires RightKind(op, point) && point.AtRename?
    ensures op.Set?
  {
  }

  /** Durability survives every call. */
  lemma StepDurable(fs: Fs, after: Fs, written: set<(Path, Bytes)>, op: Op, point: Point)
    requires Consistent(fs) && Durable(fs, written) && Guarantee(fs, after, op, point)
    requires RightKind(op, point) && HoldsTemporary(fs, op, point) && HoldsContent(fs, op, point)
    requires op.Set? ==> (PathFor(op), op.value) in written
    ensures Durable(after, written)
  {
    hide Consistent, PathFor, RightKind, HoldsTemporary, HoldsContent, Guarantee, Candidates, Unwritten,
         Layout.IsCredentialName;
    forall path: Path, binding |
      Layout.IsCredentialName(path.name) && binding in Candidates(after, path) && binding.Some?
      ensures binding.value in after.nodes && binding.value in after.synced && Unwritten(after, binding.value)
      ensures (path, Content(after, binding.value)) in written
    {
      StaysDurable(fs, after, written, op, point, path, binding);
    }
  }

  lemma OpenInodesExist(fs: Fs, descriptor: int)
    requires Consistent(fs)
    ensures descriptor in fs.open && fs.open[descriptor].FileHandle? ==> fs.open[descriptor].inode in fs.nodes
    ensures fs.nextInode !in fs.nodes
  {
    if descriptor in fs.open {
      assert HandleConsistent(fs, fs.open[descriptor]);
    }
  }

  /** A file open for reading is never written: neither by those who have it open nor by anyone later. */
  lemma StepReadersFrozen(fs: Fs, after: Fs, written: set<(Path, Bytes)>, op: Op, point: Point)
    requires Consistent(fs) && Durable(fs, written) && ReadersFrozen(fs) && Guarantee(fs, after, op, point)
    ensures ReadersFrozen(after)
  {
    hide Consistent, PathFor, Candidates, Unwritten, TouchedTemporary, TemporaryInode, Owns, Layout.IsCredentialName,
         Durable;
    forall d <- after.open | after.open[d].FileHandle? && !after.open[d].writable
      ensures Unwritten(after, after.open[d].inode)
    {
      OpenInodesExist(fs, d);
      if d !in fs.open {
        CredentialUnwritten(fs, written, op);
      }
      WritersStayAway(fs, after, op, point, after.open[d].inode);
    }
  }

  lemma CredentialUnwritten(fs: Fs, written: set<(Path, Bytes)>, op: Op)
    requires Consistent(fs) && Durable(fs, written)
    ensures Binding(fs, PathFor(op)).Some? ==>
      Unwritten(fs, Binding(fs, PathFor(op)).value) && Binding(fs, PathFor(op)).value in fs.nodes
    ensures fs.nextInode !in fs.nodes
  {
    hide Unwritten;
    OtherNames(op, op);
    assert Binding(fs, PathFor(op)) in Candidates(fs, PathFor(op));
  }

  /** How the log entry of a call changes the map of credentials. */
  function Effect(credentials: Credentials, entry: Option<Action>): Credentials {
    match entry case Some(action) => Apply(credentials, action) case None => credentials
  }

  /** The names other than the operation's own look the same in the view. */
  lemma ViewElsewhere(fs: Fs, after: Fs, written: set<(Path, Bytes)>, op: Op, point: Point, path: Path)
    requires Consistent(fs) && Durable(fs, written) && Guarantee(fs, after, op, point)
    requires RightKind(op, point) && (path != PathFor(op) || op.Get?)
    ensures Lookup(View(after), path) == Lookup(View(fs), path)
  {
    hide PathFor, TemporaryInode, Owns, Unwritten;
    if Layout.IsCredentialName(path.name) {
      assert Binding(after, path) == Binding(fs, path);
      assert Binding(fs, path) in Candidates(fs, path);
    }
  }

  /** A name bound to the same unwritten inode looks the same in the view. */
  lemma ViewHere(fs: Fs, after: Fs, written: set<(Path, Bytes)>, op: Op, point: Point)
    requires Consistent(fs) && Durable(fs, written) && Guarantee(fs, after, op, point)
    requires Binding(after, PathFor(op)) == Binding(fs, PathFor(op))
    ensures Lookup(View(after), PathFor(op)) == Lookup(View(fs), PathFor(op))
  {
    hide TemporaryInode, Owns, Candidates, TouchedTemporary, Consistent, Durable, Layout.Hex;
    CredentialUnwritten(fs, written, op);
  }

  lemma SameLookupsSame(a: Credentials, b: Credentials)
    requires forall path: Path :: Lookup(a, path) == Lookup(b, path)
    ensures a == b
  {
    forall path: Path
      ensures path in a <==> path in b
      ensures path in a ==> a[path] == b[path]
    {
      assert Lookup(a, path) == Lookup(b, path);
    }
  }

  /** The points whose calls bind or unbind a name. */
  predicate Binds(point: Point) {
    point.AtCreate? || point.AtRename? || point.AtUnlink? || point.AtCleanupUnlink?
  }

  lemma OtherPointsBindNothing(op: Op, point: Point)
    requires !point.Finished? && !Binds(point)
    ensures var call := CallOf(op, point); !call.CreateFile? && !call.Rename? && !call.Unlink?
  {
  }

  lemma OtherCallsBindNothing(fs: Fs, call: Call, fault: Disturbance)
    requires Callable(fs, call) && !call.CreateFile? && !call.Rename? && !call.Unlink?
    ensures Exec(fs, call, fault).0.entries == fs.entries
  {
    hide Prepare;
    if call.PrepareDirectories? {
      PrepareEffects(fs, call.service, fault.error, Allowance(fault, 3));
    }
  }

  lemma CreateStays(fs: Fs, op: Op, point: Point, fault: Disturbance)
    requires Consistent(fs) && point.AtCreate? && RightKind(op, point)
    requires Callable(fs, CallOf(op, point)) && HoldsDescriptors(fs, op, point)
    ensures Binding(Exec(fs, CallOf(op, point), fault).0, PathFor(op)) == Binding(fs, PathFor(op))
  {
    hide Layout.IsCredentialName, Is, Layout.Hex, Consistent, CreateNew, HoldsDescriptors;
    OtherName(op, point.temporary);
    HoldsDirectory(fs, op, point, point);
    if fault.error.None? && Path(op.service, point.temporary) !in fs.entries {
      CreateNames(fs, Path(op.service, point.temporary));
    }
    CreateFails(fs, Path(op.service, point.temporary), fault.error);
  }

  lemma UnlinkStays(fs: Fs, op: Op, point: Point, fault: Disturbance)
    requires point.AtUnlink? && RightKind(op, point)
    requires Callable(fs, CallOf(op, point)) && HoldsDescriptors(fs, op, point)
    requires Linearize(fs, op, point, Exec(fs, CallOf(op, point), fault).1).None?
    ensures Binding(Exec(fs, CallOf(op, point), fault).0, PathFor(op)) == Binding(fs, PathFor(op))
  {
    hide Layout.Hex, UnlinkEntry, HoldsDescriptors;
    HoldsDirectory(fs, op, point, point);
    UnlinkFails(fs, PathFor(op), fault.error);
  }

  lemma CleanupStays(fs: Fs, op: Op, point: Point, fault: Disturbance)
    requires point.AtCleanupUnlink? && RightKind(op, point)
    requires Callable(fs, CallOf(op, point)) && HoldsDescriptors(fs, op, point)
    ensures Binding(Exec(fs, CallOf(op, point), fault).0, PathFor(op)) == Binding(fs, PathFor(op))
  {
    hide Layout.IsCredentialName, Layout.Hex, UnlinkEntry, HoldsDescriptors;
    OtherName(op, point.temporary);
    HoldsDirectory(fs, op, point, point);
    UnlinkElsewhere(fs, Path(op.service, point.temporary), PathFor(op), fault.error);
  }

  /** Only a completed rename or unlink moves the operation's own name. */
  lemma NameStays(fs: Fs, op: Op, point: Point, fault: Disturbance)
    requires Consistent(fs) && !point.Finished? && RightKind(op, point)
    requires Callable(fs, CallOf(op, point)) && HoldsDescriptors(fs, op, point)
    requires Linearize(fs, op, point, Exec(fs, CallOf(op, point), fault).1).None?
          || Linearize(fs, op, point, Exec(fs, CallOf(op, point), fault).1).value.Saw?
    ensures Binding(Exec(fs, CallOf(op, point), fault).0, PathFor(op)) == Binding(fs, PathFor(op))
  {
    hide Consistent, HoldsDescriptors, Exec, Callable, CallOf, PathFor, MissingEntry;
    if point.AtCreate? {
      CreateStays(fs, op, point, fault);
    } else if point.AtRename? {
      RenameFails(fs, op, point, fault);
    } else if point.AtUnlink? {
      UnlinkStays(fs, op, point, fault);
    } else if point.AtCleanupUnlink? {
      CleanupStays(fs, op, point, fault);
    } else {
      OtherPointsBindNothing(op, point);
      OtherCallsBindNothing(fs, CallOf(op, point), fault);
    }
  }

  lemma UnlinkFails(fs: Fs, path: Path, problem: Option<Error>)
    ensures !UnlinkEntry(fs, path, problem).1.Done? ==> UnlinkEntry(fs, path, problem).0 == fs
  {
  }

  lemma UnlinkElsewhere(fs: Fs, path: Path, other: Path, problem: Option<Error>)
    requires path != other
    ensures Binding(UnlinkEntry(fs, path, problem).0, other) == Binding(fs, other)
  {
  }

  lemma RenameFails(fs: Fs, op: Op, point: Point, fault: Disturbance)
    requires point.AtRename? && Callable(fs, CallOf(op, point)) && op.Set?
    requires Linearize(fs, op, point, Exec(fs, CallOf(op, point), fault).1).None?
    ensures Exec(fs, CallOf(op, point), fault).0 == fs
  {
  }

  lemma WroteShows(fs: Fs, op: Op, point: Point, action: Option<Action>, fault: Disturbance, trusted: bool)
    requires point.AtRename? && ThreadOk(fs, op, point, action, trusted) && Callable(fs, CallOf(op, point))
    requires Exec(fs, CallOf(op, point), fault).1.Done?
    ensures Lookup(View(Exec(fs, CallOf(op, point), fault).0), PathFor(op)) == Some(op.value)
  {
    hide ThreadOk, Layout.Hex, Layout.IsCredentialName, HoldsDescriptors, HoldsTemporary, HoldsContent;
    RenameParts(fs, op, point, action, trusted);
    HoldsDirectory(fs, op, point, point);
    RenameCommits(fs, op, point);
    OtherNames(op, op);
  }

  lemma RenameParts(fs: Fs, op: Op, point: Point, action: Option<Action>, trusted: bool)
    requires point.AtRename? && ThreadOk(fs, op, point, action, trusted)
    ensures op.Set? && RightKind(op, point) && HoldsTemporary(fs, op, point) && HoldsContent(fs, op, point)
    ensures HoldsDescriptors(fs, op, point)
  {
    hide HoldsDescriptors, HoldsTemporary, HoldsContent, StillValidated, ReadsPrefix, Outcomes, LogsRight, PathFor,
         Layout.IsCredentialName;
  }

  lemma UnlinkShows(fs: Fs, op: Op, point: Point, fault: Disturbance, trusted: bool)
    requires point.AtUnlink? && HoldsDescriptors(fs, op, point) && StillValidated(fs, op, point, trusted)
    requires Callable(fs, CallOf(op, point)) && Exec(fs, CallOf(op, point), fault).1.Done?
    ensures Lookup(View(Exec(fs, CallOf(op, point), fault).0), PathFor(op)) == None
    ensures PathFor(op) in View(fs)
  {
    hide Layout.Hex, Layout.IsCredentialName, HoldsDescriptors;
    HoldsDirectory(fs, op, point, point);
    OtherNames(op, op);
  }

  /** Main: the view changes exactly as the log entry says, and the entry is legal. */
  lemma StepView(
    fs: Fs, written: set<(Path, Bytes)>, op: Op, point: Point, action: Option<Action>, fault: Disturbance, trusted: bool)
    requires Consistent(fs) && Durable(fs, written) && !point.Finished?
    requires ThreadOk(fs, op, point, action, trusted)
    requires Callable(fs, CallOf(op, point))
    requires Guarantee(fs, Exec(fs, CallOf(op, point), fault).0, op, point)
    ensures var (after, outcome) := Exec(fs, CallOf(op, point), fault);
            var entry := Linearize(fs, op, point, outcome);
            && (entry.Some? ==> Legal(View(fs), entry.value))
            && View(after) == Effect(View(fs), entry)
  {
    hide Consistent, Durable, HoldsDescriptors, HoldsTemporary, HoldsContent, StillValidated, ReadsPrefix,
         Outcomes, LogsRight, Guarantee, Callable, Exec, PathFor, RightKind, View, Content, Is, CallOf;
    var (after, outcome) := Exec(fs, CallOf(op, point), fault);
    var entry := Linearize(fs, op, point, outcome);
    if entry.Some? && entry.value.Wrote? {
      WroteShows(fs, op, point, action, fault, trusted);
    } else if entry.Some? && entry.value.Removed? {
      UnlinkShows(fs, op, point, fault, trusted);
    } else {
      NameStays(fs, op, point, fault);
      ViewHere(fs, after, written, op, point);
      if entry.Some? {
        SawRight(fs, op, point, fault);
      }
    }
    forall path: Path
      ensures Lookup(View(after), path) == Lookup(Effect(View(fs), entry), path)
    {
      if path != PathFor(op) || op.Get? {
        ViewElsewhere(fs, after, written, op, point, path);
      }
    }
    SameLookupsSame(View(after), Effect(View(fs), entry));
  }

  lemma SawRight(fs: Fs, op: Op, point: Point, fault: Disturbance)
    requires Consistent(fs) && !point.Finished? && HoldsDescriptors(fs, op, point)
    requires Callable(fs, CallOf(op, point))
    requires var entry := Linearize(fs, op, point, Exec(fs, CallOf(op, point), fault).1);
             entry.Some? && entry.value.Saw?
    ensures var entry := Linearize(fs, op, point, Exec(fs, CallOf(op, point), fault).1).value;
            Lookup(View(fs), entry.path) == entry.found
  {
    hide Consistent, HoldsDescriptors, Callable, Exec, Is, CallOf, Layout.IsCredentialName, Layout.Hex;
    OtherNames(op, op);
  }
}
