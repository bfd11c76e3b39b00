/** What one operation's call guarantees is what every other operation relies on. */
module Interference {
  import opened Wrappers
  import opened Errors
  import opened Filesystem
  import opened Program
  import opened Invariants
  import opened LinuxSystem
  import opened Machine
  import opened Threads
  import opened Guarantees
  import Layout

  /** Two operations that have nothing in common: descriptors, temporary, or a name both may change. */
  ghost predicate Separate(op: Op, point: Point, op2: Op, point2: Point) {
    && Owns(op, point) !! Owns(op2, point2)
    && (Temporary(op, point).Some? ==> Temporary(op, point) != Temporary(op2, point2))
    && (!op.Get? && !op2.Get? ==> PathFor(op) != PathFor(op2))
  }

  lemma BindingsAreCandidates(fs: Fs)
    requires Consistent(fs)
    ensures forall path: Path :: Binding(fs, path) in Candidates(fs, path)
    ensures fs.nextInode !in fs.nodes
  {
  }

  lemma TouchedElsewhere(fs: Fs, op: Op, point: Point, op2: Op, point2: Point)
    requires RightKind(op, point) && RightKind(op2, point2)
    requires Separate(op, point, op2, point2)
    requires HoldsTemporary(fs, op2, point2)
    ensures Temporary(op2, point2).Some? ==>
      && TouchedTemporary(fs, op, point) != Temporary(op2, point2)
      && Temporary(op2, point2) != Some(PathFor(op))
    ensures TouchedTemporary(fs, op, point) != Some(PathFor(op2))
  {
    OtherNames(op, op2);
  }

  lemma OtherNames(op: Op, op2: Op)
    ensures Layout.IsCredentialName(PathFor(op).name) && Layout.IsCredentialName(PathFor(op2).name)
  {
  }

  lemma TemporariesDiffer(fs: Fs, op: Op, point: Point, op2: Op, point2: Point)
    requires Consistent(fs)
    requires Separate(op, point, op2, point2)
    requires HoldsTemporary(fs, op, point) && HoldsTemporary(fs, op2, point2)
    ensures TemporaryInode(fs, op, point).Some? ==> TemporaryInode(fs, op, point) != TemporaryInode(fs, op2, point2)
  {
    if TemporaryInode(fs, op, point).Some? && TemporaryInode(fs, op2, point2).Some? {
      var path := Temporary(op2, point2).value;
      assert Binding(fs, path) in Candidates(fs, path);
      assert path != Temporary(op, point).value;
    }
  }

  lemma StaysPrivate(fs: Fs, after: Fs, op: Op, point: Point, inode: Inode, path: Path, descriptor: Option<int>)
    requires Consistent(fs)
    requires Guarantee(fs, after, op, point)
    requires Private(fs, inode, path, descriptor) && inode in fs.nodes
    requires TemporaryInode(fs, op, point) != Some(inode)
    requires path != PathFor(op) && TouchedTemporary(fs, op, point) != Some(path)
    ensures Private(after, inode, path, descriptor)
  {
    hide Consistent, PathFor, TouchedTemporary, TemporaryInode, Owns, Unwritten, Binding, Candidates;
    BindingsAreCandidates(fs);
  }

  lemma DescriptorsApart(fs: Fs, after: Fs, op: Op, point: Point, op2: Op, point2: Point)
    requires Guarantee(fs, after, op, point) && Separate(op, point, op2, point2)
    ensures DescriptorsLeft(fs, after, op2, point2)
  {
    hide PathFor, TouchedTemporary, TemporaryInode, Temporary, Owns, Unwritten, Candidates, Binding;
  }

  lemma NodesApart(fs: Fs, after: Fs, op: Op, point: Point, op2: Op, point2: Point)
    requires Consistent(fs) && Guarantee(fs, after, op, point) && Separate(op, point, op2, point2)
    requires HoldsTemporary(fs, op, point) && HoldsTemporary(fs, op2, point2)
    ensures NodesLeft(fs, after, op2, point2)
  {
    hide Consistent, PathFor, TouchedTemporary, TemporaryInode, Temporary, Owns, Unwritten, Candidates, Binding, Separate,
         HoldsTemporary;
    TemporariesDiffer(fs, op, point, op2, point2);
  }

  lemma TemporaryApart(fs: Fs, after: Fs, op: Op, point: Point, op2: Op, point2: Point)
    requires Consistent(fs) && Guarantee(fs, after, op, point) && Separate(op, point, op2, point2)
    requires RightKind(op, point) && RightKind(op2, point2)
    requires HoldsTemporary(fs, op, point) && HoldsTemporary(fs, op2, point2)
    ensures TemporaryLeft(fs, after, op2, point2)
  {
    hide Consistent, PathFor, TouchedTemporary, Temporary, Owns, Unwritten, Candidates, Private, Separate, RightKind;
    TouchedElsewhere(fs, op, point, op2, point2);
    TemporariesDiffer(fs, op, point, op2, point2);
    if Temporary(op2, point2).Some? {
      var path := Temporary(op2, point2).value;
      StaysPrivate(fs, after, op, point, fs.entries[path], path, File(point2));
    }
  }

  lemma NameApart(fs: Fs, after: Fs, op: Op, point: Point, op2: Op, point2: Point)
    requires Guarantee(fs, after, op, point) && Separate(op, point, op2, point2) && !op2.Get?
    requires RightKind(op, point) && RightKind(op2, point2) && HoldsTemporary(fs, op2, point2)
    ensures NameLeft(fs, after, PathFor(op2))
  {
    hide PathFor, TouchedTemporary, TemporaryInode, Temporary, Owns, Unwritten, Candidates, Binding, RightKind,
         HoldsTemporary;
    TouchedElsewhere(fs, op, point, op2, point2);
  }

  /** Main: whatever call one operation makes, a separate one is not disturbed. */
  lemma GuaranteeMeetsRely(fs: Fs, after: Fs, op: Op, point: Point, op2: Op, point2: Point)
    requires Consistent(fs)
    requires Guarantee(fs, after, op, point)
    requires RightKind(op, point) && RightKind(op2, point2)
    requires HoldsTemporary(fs, op, point) && HoldsTemporary(fs, op2, point2)
    requires Separate(op, point, op2, point2)
    ensures Undisturbed(fs, after, op2, point2)
  {
    hide Consistent, Guarantee, RightKind, HoldsTemporary, Separate, DescriptorsLeft, NodesLeft, TemporaryLeft, NameLeft;
    DescriptorsApart(fs, after, op, point, op2, point2);
    NodesApart(fs, after, op, point, op2, point2);
    TemporaryApart(fs, after, op, point, op2, point2);
    if !op2.Get? {
      NameApart(fs, after, op, point, op2, point2);
    }
  }

  lemma ContentsKept(fs: Fs, after: Fs, op: Op, point: Point, inode: Inode)
    requires Undisturbed(fs, after, op, point)
    requires inode in fs.nodes && (Unwritten(fs, inode) || TemporaryInode(fs, op, point) == Some(inode))
    ensures inode in after.nodes && Content(after, inode) == Content(fs, inode)
  {
  }

  lemma OwnedKept(fs: Fs, after: Fs, op: Op, point: Point)
    requires Undisturbed(fs, after, op, point)
    ensures forall d <- Owns(op, point) | d in fs.open :: d in after.open && after.open[d] == fs.open[d]
    ensures fs.nodes.Keys <= after.nodes.Keys
  {
    hide Owns, Unwritten, TemporaryInode, Private, Candidates;
  }

  lemma DirectoriesKept(fs: Fs, after: Fs, op: Op, point: Point)
    requires Undisturbed(fs, after, op, point) && HoldsDescriptors(fs, op, point)
    ensures forall d <- Directories(op, point) ::
              d in after.open && after.open[d] == DirectoryHandle(Directories(op, point)[d])
  {
    hide Undisturbed, Directories, File, Temporary, Distinct, IsFile;
    OwnedKept(fs, after, op, point);
    forall d <- Directories(op, point)
      ensures d in after.open && after.open[d] == fs.open[d]
    {
      assert d in Owns(op, point);
    }
  }

  lemma FileKept(fs: Fs, after: Fs, op: Op, point: Point)
    requires Undisturbed(fs, after, op, point) && HoldsDescriptors(fs, op, point) && File(point).Some?
    ensures IsFile(after, File(point).value)
    ensures after.open[File(point).value] == fs.open[File(point).value]
  {
    hide Undisturbed, Directories, File, Temporary, Distinct;
    OwnedKept(fs, after, op, point);
    assert File(point).value in Owns(op, point);
  }

  lemma DescriptorsKept(fs: Fs, after: Fs, op: Op, point: Point)
    requires Undisturbed(fs, after, op, point)
    requires HoldsDescriptors(fs, op, point)
    ensures HoldsDescriptors(after, op, point)
    ensures File(point).Some? ==> after.open[File(point).value] == fs.open[File(point).value]
  {
    hide Undisturbed, Directories, File, Temporary, Distinct, IsFile;
    DirectoriesKept(fs, after, op, point);
    if File(point).Some? {
      FileKept(fs, after, op, point);
    }
  }

  lemma TemporaryKept(fs: Fs, after: Fs, op: Op, point: Point)
    requires Undisturbed(fs, after, op, point)
    requires HoldsDescriptors(fs, op, point) && HoldsTemporary(fs, op, point) && HoldsContent(fs, op, point)
    ensures HoldsTemporary(after, op, point) && HoldsContent(after, op, point)
  {
    hide Private, PathFor, Unwritten, Candidates;
    DescriptorsKept(fs, after, op, point);
    if Temporary(op, point).Some? {
      ContentsKept(fs, after, op, point, TemporaryInode(fs, op, point).value);
    }
  }

  /** A file open for reading, or bound to a credential name, is never written. */
  lemma ReadableUnwritten(fs: Fs, written: set<(Path, Bytes)>, op: Op, point: Point)
    requires Consistent(fs) && Durable(fs, written) && ReadersFrozen(fs)
    requires HoldsDescriptors(fs, op, point)
    ensures File(point).Some? && Temporary(op, point).None? ==>
      Unwritten(fs, fs.open[File(point).value].inode) && fs.open[File(point).value].inode in fs.nodes
    ensures PathFor(op) in fs.entries ==>
      fs.entries[PathFor(op)] in fs.nodes && Unwritten(fs, fs.entries[PathFor(op)])
  {
    hide Unwritten;
    OtherNames(op, op);
    assert Binding(fs, PathFor(op)) in Candidates(fs, PathFor(op));
  }

  /** The descriptor on the file that an operation reads is untouched, and so is the file. */
  ghost predicate FileLeft(fs: Fs, after: Fs, op: Op, point: Point) {
    File(point).Some? && Temporary(op, point).None? ==>
      && IsFile(fs, File(point).value) && IsFile(after, File(point).value)
      && after.open[File(point).value] == fs.open[File(point).value]
      && Content(after, fs.open[File(point).value].inode) == Content(fs, fs.open[File(point).value].inode)
  }

  lemma ReadFileLeft(fs: Fs, after: Fs, written: set<(Path, Bytes)>, op: Op, point: Point)
    requires Undisturbed(fs, after, op, point)
    requires Consistent(fs) && Durable(fs, written) && ReadersFrozen(fs)
    requires HoldsDescriptors(fs, op, point)
    ensures FileLeft(fs, after, op, point)
  {
    hide Consistent, Durable, ReadersFrozen, PathFor, Unwritten, Undisturbed, HoldsDescriptors, Temporary, File, IsFile,
         Content;
    if File(point).Some? && Temporary(op, point).None? {
      HeldFile(fs, op, point);
      FileKept(fs, after, op, point);
      ReadableUnwritten(fs, written, op, point);
      ContentsKept(fs, after, op, point, fs.open[File(point).value].inode);
    }
  }

  lemma ReadingKept(fs: Fs, after: Fs, op: Op, point: Point)
    requires FileLeft(fs, after, op, point) && RightKind(op, point)
    requires ReadsPrefix(fs, op, point)
    ensures ReadsPrefix(after, op, point)
  {
    hide PathFor, Content;
  }

  /** The log's account of an operation depends on the file system only through the file it reads. */
  lemma LoggingKept(fs: Fs, after: Fs, op: Op, point: Point, action: Option<Action>, trusted: bool)
    requires FileLeft(fs, after, op, point) && RightKind(op, point)
    requires LogsRight(fs, op, point, action, trusted)
    ensures LogsRight(after, op, point, action, trusted)
  {
    hide Accounted, Explains, PathFor, Plain, Content;
  }

  lemma HeldFile(fs: Fs, op: Op, point: Point)
    requires HoldsDescriptors(fs, op, point) && File(point).Some?
    ensures IsFile(fs, File(point).value)
    ensures File(point).value in fs.open && fs.open[File(point).value].FileHandle?
  {
    hide Distinct, Directories;
  }

  lemma ValidationKept(fs: Fs, after: Fs, op: Op, point: Point, trusted: bool)
    requires FileLeft(fs, after, op, point) && RightKind(op, point) && HoldsDescriptors(fs, op, point)
    requires !op.Get? ==> NameLeft(fs, after, PathFor(op))
    requires StillValidated(fs, op, point, trusted)
    ensures StillValidated(after, op, point, trusted)
  {
    hide PathFor, Content, Binding, Candidates;
  }

  lemma OutcomesKept(fs: Fs, after: Fs, op: Op, point: Point)
    requires Consistent(fs) && RightKind(op, point) && Outcomes(fs, op, point)
    requires !op.Get? ==> NameLeft(fs, after, PathFor(op))
    requires !op.Get? && PathFor(op) in fs.entries && fs.entries[PathFor(op)] in fs.nodes ==>
               && fs.entries[PathFor(op)] in after.nodes
               && Content(after, fs.entries[PathFor(op)]) == Content(fs, fs.entries[PathFor(op)])
    ensures Outcomes(after, op, point)
  {
    hide PathFor, Content, Candidates, Consistent;
  }

  lemma NamesKept(fs: Fs, after: Fs, written: set<(Path, Bytes)>, op: Op, point: Point, trusted: bool)
    requires Undisturbed(fs, after, op, point) && FileLeft(fs, after, op, point)
    requires Consistent(fs) && Durable(fs, written) && ReadersFrozen(fs)
    requires RightKind(op, point) && HoldsDescriptors(fs, op, point)
    requires StillValidated(fs, op, point, trusted) && Outcomes(fs, op, point)
    ensures StillValidated(after, op, point, trusted) && Outcomes(after, op, point)
  {
    hide Consistent, Durable, ReadersFrozen, PathFor, Unwritten, DescriptorsLeft, NodesLeft, TemporaryLeft, NameLeft,
         FileLeft, RightKind, HoldsDescriptors, StillValidated, Outcomes, Content;
    ReadableUnwritten(fs, written, op, point);
    if PathFor(op) in fs.entries {
      ContentsKept(fs, after, op, point, fs.entries[PathFor(op)]);
    }
    ValidationKept(fs, after, op, point, trusted);
    OutcomesKept(fs, after, op, point);
  }

  /** Main: what holds of an operation keeps holding while the others run. */
  lemma ThreadStable(fs: Fs, after: Fs, written: set<(Path, Bytes)>, op: Op, point: Point, action: Option<Action>, trusted: bool)
    requires Undisturbed(fs, after, op, point)
    requires Consistent(fs) && Durable(fs, written) && ReadersFrozen(fs)
    requires ThreadOk(fs, op, point, action, trusted)
    ensures ThreadOk(after, op, point, action, trusted)
  {
    hide Undisturbed, Consistent, Durable, ReadersFrozen, RightKind, HoldsDescriptors, HoldsTemporary, HoldsContent,
         StillValidated, ReadsPrefix, Outcomes, LogsRight, FileLeft;
    DescriptorsKept(fs, after, op, point);
    TemporaryKept(fs, after, op, point);
    ReadFileLeft(fs, after, written, op, point);
    ReadingKept(fs, after, op, point);
    LoggingKept(fs, after, op, point, action, trusted);
    NamesKept(fs, after, written, op, point, trusted);
  }
}
