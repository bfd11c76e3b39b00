/**
 What holds at each control point of one operation, and what one system call of an operation may
 change: the rely and guarantee of the concurrent machine.
 */
module Threads {
  import opened Wrappers
  import opened Errors
  import opened Filesystem
  import opened Program
  import opened Invariants
  import opened LinuxSystem
  import opened Machine
  import Layout

  function Child(op: Op, result: Result<int, Error>): map<int, Directory> {
    match result
    case Success(directory) => map[directory := Service(op.service)]
    case Failure(_) => map[]
  }

  /** The directory descriptors an operation holds. */
  function Directories(op: Op, point: Point): map<int, Directory> {
    match point
    case AtMount => map[]
    case AtPrepare => map[]
    case AtRoot => map[]
    case Finished(_) => map[]
    case AtVersion(root) => map[root := Root]
    case AtService(root, version) => map[root := Root, version := Version]
    case AtCloseVersion(root, version, result) => map[root := Root, version := Version] + Child(op, result)
    case AtCloseRoot(root, result) => map[root := Root] + Child(op, result)
    case _ => map[point.directory := Service(op.service)]
  }

  /** The file descriptor it holds. */
  function File(point: Point): Option<int> {
    match point
    case AtStat(_, descriptor) => Some(descriptor)
    case AtCloseInvalid(_, descriptor, _) => Some(descriptor)
    case AtRead(_, descriptor, _) => Some(descriptor)
    case AtCloseRead(_, descriptor, _, _) => Some(descriptor)
    case AtCloseChecked(_, descriptor, _) => Some(descriptor)
    case AtChmod(_, _, _, descriptor) => Some(descriptor)
    case AtWrite(_, _, _, descriptor, _) => Some(descriptor)
    case AtSyncFile(_, _, _, descriptor) => Some(descriptor)
    case AtCloseFile(_, _, _, descriptor) => Some(descriptor)
    case AtCleanupClose(_, _, descriptor, _) => Some(descriptor)
    case _ => None
  }

  /** The temporary it has created and not yet renamed or given up. */
  function Temporary(op: Op, point: Point): Option<Path> {
    match point
    case AtChmod(_, _, temporary, _) => Some(Path(op.service, temporary))
    case AtWrite(_, _, temporary, _, _) => Some(Path(op.service, temporary))
    case AtSyncFile(_, _, temporary, _) => Some(Path(op.service, temporary))
    case AtCloseFile(_, _, temporary, _) => Some(Path(op.service, temporary))
    case AtRename(_, _, temporary) => Some(Path(op.service, temporary))
    case AtCleanupClose(_, temporary, _, _) => Some(Path(op.service, temporary))
    case AtCleanupUnlink(_, temporary, _) => Some(Path(op.service, temporary))
    case _ => None
  }

  function Owns(op: Op, point: Point): set<int> {
    Directories(op, point).Keys + (if File(point).Some? then {File(point).value} else {})
  }

  /** The temporary whose name the next call may bind or unbind. */
  function TouchedTemporary(fs: Fs, op: Op, point: Point): Option<Path> {
    if point.AtCreate? && Path(op.service, point.temporary) !in fs.entries then
      Some(Path(op.service, point.temporary))
    else
      Temporary(op, point)
  }

  predicate Distinct(point: Point) {
    match point
    case AtService(root, version) => root != version
    case AtCloseVersion(root, version, result) =>
      root != version && (result.Success? ==> result.value != root && result.value != version)
    case AtCloseRoot(root, result) => result.Success? ==> result.value != root
    case _ => File(point).Some? ==> point.directory != File(point).value
  }

  /** The points that only a Get, only a Set, or only a mutation reaches. */
  predicate RightKind(op: Op, point: Point) {
    match point
    case AtPrepare => op.Set?
    case AtRead(_, _, _) => op.Get?
    case AtCloseRead(_, _, _, _) => op.Get?
    case AtCloseChecked(_, _, _) => !op.Get?
    case AtSyncDirectory(_) => !op.Get?
    case AtUnlink(_, _) => op.Delete?
    case AtRandom(_, _, _) => op.Set?
    case AtCreate(_, _, _, temporary) => op.Set? && !Layout.IsCredentialName(temporary)
    case _ => Temporary(op, point).Some? ==> op.Set? && !Layout.IsCredentialName(Temporary(op, point).value.name)
  }

  ghost predicate HoldsDescriptors(fs: Fs, op: Op, point: Point) {
    && Distinct(point)
    && (forall d <- Directories(op, point) ::
          d in fs.open && fs.open[d] == DirectoryHandle(Directories(op, point)[d]))
    && (File(point).Some? ==>
          && IsFile(fs, File(point).value)
          && fs.open[File(point).value].writable == Temporary(op, point).Some?)
  }

  /** No name other than `path` may ever lead to the inode, and only `descriptor` is open on it. */
  ghost predicate Private(fs: Fs, inode: Inode, path: Path, descriptor: Option<int>) {
    && (forall other: Path | other != path :: Some(inode) !in Candidates(fs, other))
    && (forall d <- fs.open | fs.open[d].FileHandle? && fs.open[d].inode == inode :: descriptor == Some(d))
  }

  ghost predicate HoldsTemporary(fs: Fs, op: Op, point: Point) {
    var temporary := Temporary(op, point);
    temporary.Some? ==>
      && temporary.value in fs.entries
      && var inode := fs.entries[temporary.value];
         && inode in fs.nodes
         && Private(fs, inode, temporary.value, File(point))
         && (File(point).Some? && File(point).value in fs.open && fs.open[File(point).value].FileHandle? ==>
               fs.open[File(point).value].inode == inode)
  }

  function TemporaryInode(fs: Fs, op: Op, point: Point): Option<Inode> {
    var temporary := Temporary(op, point);
    if temporary.Some? && temporary.value in fs.entries then Some(fs.entries[temporary.value]) else None
  }

  /** How much of the value is in the temporary, and whether it is on disk. */
  ghost predicate HoldsContent(fs: Fs, op: Op, point: Point) {
    op.Set? && TemporaryInode(fs, op, point).Some? ==>
      var inode := TemporaryInode(fs, op, point).value;
      var content := Content(fs, inode);
      match point
      case AtChmod(_, _, _, _) => content == []
      case AtWrite(_, _, _, _, rest) => content + rest == op.value && rest != []
      case AtSyncFile(_, _, _, _) => content == op.value
      case AtCloseFile(_, _, _, _) => content == op.value && inode in fs.synced
      case AtRename(_, _, _) => content == op.value && inode in fs.synced
      case _ => true
  }

  /** What validation found is still there; that nothing was found counts only if no dishonest fault said so. */
  ghost predicate StillBound(fs: Fs, op: Op, seen: Option<Inode>, trusted: bool) {
    seen.Some? || trusted ==> Binding(fs, PathFor(op)) == seen
  }

  /** What validation found under the name is still there. */
  ghost predicate StillValidated(fs: Fs, op: Op, point: Point, trusted: bool) {
    match point
    case AtCloseChecked(_, _, inode) => Binding(fs, PathFor(op)) == Some(inode)
    case AtRandom(_, seen, _) => StillBound(fs, op, seen, trusted)
    case AtCreate(_, seen, _, _) => StillBound(fs, op, seen, trusted)
    case AtChmod(_, seen, _, _) => StillBound(fs, op, seen, trusted)
    case AtWrite(_, seen, _, _, _) => StillBound(fs, op, seen, trusted)
    case AtSyncFile(_, seen, _, _) => StillBound(fs, op, seen, trusted)
    case AtCloseFile(_, seen, _, _) => StillBound(fs, op, seen, trusted)
    case AtRename(_, seen, _) => StillBound(fs, op, seen, trusted)
    case AtUnlink(_, target) => Binding(fs, PathFor(op)) == Some(target)
    case AtStat(_, descriptor) =>
      !op.Get? && descriptor in fs.open && fs.open[descriptor].FileHandle? ==>
        Binding(fs, PathFor(op)) == Some(fs.open[descriptor].inode)
    case _ => true
  }

  /** What has been read so far is a prefix of the file. */
  ghost predicate ReadsPrefix(fs: Fs, op: Op, point: Point) {
    (point.AtStat? || point.AtRead? || (point.AtCloseRead? && point.readProblem.None?)) && IsFile(fs, point.descriptor) ==>
      var handle := fs.open[point.descriptor];
      && (point.AtStat? ==> handle.offset == 0)
      && (point.AtRead? ==> handle.offset == |point.contents| && point.contents <= Content(fs, handle.inode))
      && (point.AtCloseRead? ==> point.contents == Content(fs, handle.inode))
  }

  /** The name is bound to what the operation put there. */
  ghost predicate Committed(fs: Fs, op: Op) {
    match op
    case Set(_, _, value) =>
      PathFor(op) in fs.entries && fs.entries[PathFor(op)] in fs.nodes && Content(fs, fs.entries[PathFor(op)]) == value
    case Delete(_, _) => PathFor(op) !in fs.entries
    case Get(_, _) => true
  }

  ghost predicate Outcomes(fs: Fs, op: Op, point: Point) {
    && (point.AtSyncDirectory? ==> Committed(fs, op))
    && ((point.AtCloseDirectory? || point.Finished?) && point.reply.Stored? ==>
          && !op.Get?
          && Committed(fs, op)
          && Candidates(fs, PathFor(op)) == {Binding(fs, PathFor(op))})
  }

  /** An entry of the operation's own kind, on its own name. */
  predicate OwnEntry(op: Op, action: Action) {
    match action
    case Wrote(path, value) => op.Set? && path == PathFor(op) && value == op.value
    case Removed(path) => op.Delete? && path == PathFor(op)
    case Saw(path, found) => path == PathFor(op) && (op.Get? || (op.Delete? && found == None))
  }

  /**
   The log entry that a reply rests on. If only honest faults hit the operation, an answer that matches
   `NotFound` rests on having seen that the name is absent, unless the mount check refused: then it
   matches `InsecureFallback` too, and nothing was seen.
   */
  predicate Explains(op: Op, reply: Reply, action: Option<Action>, trusted: bool) {
    match reply
    case Value(contents) => op.Get? && action == Some(Saw(PathFor(op), Some(contents)))
    case Stored =>
      && !op.Get?
      && action == Some(if op.Set? then Wrote(PathFor(op), op.value) else Removed(PathFor(op)))
    case Rejected(err) =>
      trusted && !op.Set? && IsCategory(err, NotFound) ==>
        action == if IsCategory(err, InsecureFallback) then None else Some(Saw(PathFor(op), None))
  }

  /** An error on the way to a reply: only a missing name may look like one, and then the log says so. */
  predicate Accounted(op: Op, err: Error, action: Option<Action>, trusted: bool) {
    trusted ==>
      && !IsCategory(err, NotFound)
      && (!op.Set? && Is(err, Std(NotExist)) ==>
            action == Some(Saw(PathFor(op), None)) && !IsCategory(err, InsecureFallback))
  }

  ghost predicate LogsRight(fs: Fs, op: Op, point: Point, action: Option<Action>, trusted: bool) {
    match point
    case AtCloseVersion(_, _, result) =>
      if result.Failure? then Accounted(op, result.error, action, trusted) else action == None
    case AtCloseRoot(_, result) =>
      if result.Failure? then Accounted(op, result.error, action, trusted) else action == None
    case AtStat(_, descriptor) =>
      if op.Get? then
        IsFile(fs, descriptor) ==> action == Some(Saw(PathFor(op), Some(Content(fs, fs.open[descriptor].inode))))
      else
        action == None
    case AtRead(_, descriptor, _) =>
      IsFile(fs, descriptor) ==> action == Some(Saw(PathFor(op), Some(Content(fs, fs.open[descriptor].inode))))
    case AtCloseRead(_, descriptor, _, problem) =>
      && (IsFile(fs, descriptor) ==> action == Some(Saw(PathFor(op), Some(Content(fs, fs.open[descriptor].inode)))))
      && (trusted && problem.Some? ==> Plain(problem.value))
    case AtCloseInvalid(_, _, problem) => (trusted ==> Plain(problem)) && (op.Get? || action == None)
    case AtSyncDirectory(_) =>
      action == Some(if op.Set? then Wrote(PathFor(op), op.value) else Removed(PathFor(op)))
    case AtCloseDirectory(_, reply) => Explains(op, reply, action, trusted)
    case Finished(reply) => Explains(op, reply, action, trusted)
    case _ => action == None
  }

  /** All that holds of one running operation. */
  ghost predicate ThreadOk(fs: Fs, op: Op, point: Point, action: Option<Action>, trusted: bool) {
    && RightKind(op, point)
    && HoldsDescriptors(fs, op, point)
    && HoldsTemporary(fs, op, point)
    && HoldsContent(fs, op, point)
    && StillValidated(fs, op, point, trusted)
    && ReadsPrefix(fs, op, point)
    && Outcomes(fs, op, point)
    && LogsRight(fs, op, point, action, trusted)
  }

  ghost predicate Unwritten(fs: Fs, inode: Inode) {
    forall d <- fs.open :: fs.open[d].FileHandle? && fs.open[d].writable ==> fs.open[d].inode != inode
  }

  /** Whatever a crash may leave under a credential name is complete, on disk and never written again. */
  ghost predicate Durable(fs: Fs, written: set<(Path, Bytes)>) {
    forall path: Path, binding | Layout.IsCredentialName(path.name) && binding in Candidates(fs, path) && binding.Some? ::
      && binding.value in fs.nodes && binding.value in fs.synced && Unwritten(fs, binding.value)
      && (path, Content(fs, binding.value)) in written
  }

  ghost predicate ReadersFrozen(fs: Fs) {
    forall d <- fs.open | fs.open[d].FileHandle? && !fs.open[d].writable :: Unwritten(fs, fs.open[d].inode)
  }

  /** The guarantee: all that one call of an operation may change. */
  ghost predicate Guarantee(fs: Fs, after: Fs, op: Op, point: Point) {
    var own := TemporaryInode(fs, op, point);
    && (forall d <- fs.open | d !in Owns(op, point) :: d in after.open && after.open[d] == fs.open[d])
    && (forall d <- after.open ::
          if d in fs.open then
            && after.open[d].FileHandle? == fs.open[d].FileHandle?
            && (after.open[d].FileHandle? ==>
                  after.open[d].inode == fs.open[d].inode && after.open[d].writable == fs.open[d].writable)
          else
            after.open[d].FileHandle? ==>
              if after.open[d].writable then
                after.open[d].inode == fs.nextInode
              else
                Binding(fs, PathFor(op)) == Some(after.open[d].inode))
    && (forall inode <- fs.nodes ::
          && inode in after.nodes
          && (own != Some(inode) || Unwritten(fs, inode) ==> after.nodes[inode] == fs.nodes[inode]))
    && (forall inode <- fs.synced :: own != Some(inode) || point.AtRename? ==> inode in after.synced)
    && (forall path: Path | TouchedTemporary(fs, op, point) != Some(path) && (path != PathFor(op) || op.Get?) ::
          && Binding(after, path) == Binding(fs, path)
          && Candidates(after, path) <= Candidates(fs, path)
          && (Candidates(fs, path) == {Binding(fs, path)} ==> Candidates(after, path) == {Binding(fs, path)}))
    && Candidates(after, PathFor(op)) <= Candidates(fs, PathFor(op)) + {None} + (if point.AtRename? then {own} else {})
    && (TouchedTemporary(fs, op, point).Some? ==>
          Candidates(after, TouchedTemporary(fs, op, point).value) <=
          Candidates(fs, TouchedTemporary(fs, op, point).value) + {None, Some(fs.nextInode)})
  }

  /** The rely: all that an operation needs the others to leave alone. */
  ghost predicate Undisturbed(fs: Fs, after: Fs, op: Op, point: Point) {
    && DescriptorsLeft(fs, after, op, point)
    && NodesLeft(fs, after, op, point)
    && TemporaryLeft(fs, after, op, point)
    && (!op.Get? ==> NameLeft(fs, after, PathFor(op)))
  }

  ghost predicate DescriptorsLeft(fs: Fs, after: Fs, op: Op, point: Point) {
    forall d <- Owns(op, point) | d in fs.open :: d in after.open && after.open[d] == fs.open[d]
  }

  ghost predicate NodesLeft(fs: Fs, after: Fs, op: Op, point: Point) {
    && fs.nodes.Keys <= after.nodes.Keys
    && forall inode <- fs.nodes | Unwritten(fs, inode) || TemporaryInode(fs, op, point) == Some(inode) ::
         inode in after.nodes && after.nodes[inode] == fs.nodes[inode]
  }

  ghost predicate TemporaryLeft(fs: Fs, after: Fs, op: Op, point: Point) {
    TemporaryInode(fs, op, point).Some? ==>
      var inode := TemporaryInode(fs, op, point).value;
      && Binding(after, Temporary(op, point).value) == Some(inode)
      && (inode in fs.synced ==> inode in after.synced)
      && Private(after, inode, Temporary(op, point).value, File(point))
  }

  ghost predicate NameLeft(fs: Fs, after: Fs, path: Path) {
    && Binding(after, path) == Binding(fs, path)
    && (Candidates(fs, path) == {Binding(fs, path)} ==> Candidates(after, path) == {Binding(fs, path)})
  }
}
