/** Slash-separated paths as path/filepath sees them on Linux: cleaning, parents and relative paths. */
module Paths {
  import opened Wrappers
  import opened Texts

  /** A cleaned path: its elements, and whether it starts at the root. */
  datatype FilePath = FilePath(rooted: bool, parts: seq<string>)

  /** An element that cleaning keeps as it is. */
  predicate Plain(part: string) {
    part != "" && part != "." && part != ".." && Free(part, '/')
  }

  predicate AllPlain(parts: seq<string>) {
    forall i | 0 <= i < |parts| :: Plain(parts[i])
  }

  predicate Climbs(parts: seq<string>, up: nat)
    requires up <= |parts|
  {
    && (forall i | 0 <= i < up :: parts[i] == "..")
    && AllPlain(parts[up..])
  }

  /** What cleaning produces: no empty or dot elements, and dot-dot only in front of a path without a root. */
  predicate IsClean(path: FilePath) {
    if path.rooted then AllPlain(path.parts) else exists up: nat | up <= |path.parts| :: Climbs(path.parts, up)
  }

  /** One element after those already resolved. */
  function ResolveOne(rooted: bool, done: seq<string>, part: string): seq<string> {
    if part == "" || part == "." then
      done
    else if part == ".." && done != [] && done[|done| - 1] != ".." then
      done[..|done| - 1]
    else if part == ".." && rooted then
      done
    else
      done + [part]
  }

  function Resolve(rooted: bool, parts: seq<string>, done: seq<string>): seq<string>
    decreases |parts|
  {
    if parts == [] then done else Resolve(rooted, parts[1..], ResolveOne(rooted, done, parts[0]))
  }

  predicate IsRooted(text: string) {
    text != "" && text[0] == '/'
  }

  /** `filepath.Clean`, as elements. */
  function CleanPath(text: string): FilePath {
    FilePath(IsRooted(text), Resolve(IsRooted(text), Split(text, '/'), []))
  }

  function Render(path: FilePath): string {
    if path.rooted then "/" + Join(path.parts, '/') else if path.parts == [] then "." else Join(path.parts, '/')
  }

  function Clean(text: string): string {
    Render(CleanPath(text))
  }

  /** How much of a text remains when everything after its last slash is dropped. */
  function LastSlash(text: string): (n: nat)
    ensures n <= |text|
  {
    if text == "" then 0 else if text[|text| - 1] == '/' then |text| else LastSlash(text[..|text| - 1])
  }

  /** `filepath.Dir`. */
  function Dir(text: string): string {
    Clean(text[..LastSlash(text)])
  }

  /** The parent of a cleaned path; the root and `.` are their own parents. */
  function Parent(path: FilePath): FilePath {
    if path.parts == [] then path else path.(parts := path.parts[..|path.parts| - 1])
  }

  function CommonLength(a: seq<string>, b: seq<string>): (n: nat)
    ensures n <= |a| && n <= |b| && a[..n] == b[..n]
    ensures n < |a| && n < |b| ==> a[n] != b[n]
  {
    if a == [] || b == [] || a[0] != b[0] then 0 else 1 + CommonLength(a[1..], b[1..])
  }

  function Ups(n: nat): (parts: seq<string>)
    ensures |parts| == n && forall i | 0 <= i < n :: parts[i] == ".."
  {
    if n == 0 then [] else [".."] + Ups(n - 1)
  }

  /** `filepath.Rel`; `None` for its error. */
  function Rel(base: string, target: string): Option<string> {
    var from, to := CleanPath(base), CleanPath(target);
    var n := CommonLength(from.parts, to.parts);
    if from == to then
      Some(".")
    else if from.rooted != to.rooted then
      None
    else if n < |from.parts| && n < |to.parts| && from.parts[n] == ".." then
      None
    else
      Some(Join(Ups(|from.parts| - n) + to.parts[n..], '/'))
  }

  /** The last element of a clean path without a root: plain, or another dot-dot. */
  lemma LastOfClimb(done: seq<string>, up: nat)
    requires up <= |done| && Climbs(done, up) && done != []
    ensures up < |done| ==> Plain(done[|done| - 1])
    ensures up == |done| ==> done[|done| - 1] == ".."
  {
    if up < |done| {
      assert done[|done| - 1] == done[up..][|done| - 1 - up];
    }
  }

  lemma ClimbPop(done: seq<string>, up: nat)
    requires up < |done| && Climbs(done, up)
    ensures Climbs(done[..|done| - 1], up)
  {
    assert done[..|done| - 1][up..] == done[up..][..|done| - 1 - up];
  }

  lemma ClimbPush(done: seq<string>, up: nat, part: string)
    requires up <= |done| && Climbs(done, up) && Plain(part)
    ensures Climbs(done + [part], up)
  {
    assert (done + [part])[up..] == done[up..] + [part];
  }

  lemma ClimbUp(done: seq<string>)
    requires Climbs(done, |done|)
    ensures Climbs(done + [".."], |done| + 1)
  {
  }

  lemma RootedOne(done: seq<string>, part: string)
    requires Free(part, '/') && AllPlain(done)
    ensures AllPlain(ResolveOne(true, done, part))
  {
  }

  lemma ResolveOneIsClean(rooted: bool, done: seq<string>, part: string)
    requires Free(part, '/')
    requires IsClean(FilePath(rooted, done))
    ensures IsClean(FilePath(rooted, ResolveOne(rooted, done, part)))
  {
    hide Climbs, AllPlain;
    if rooted {
      RootedOne(done, part);
    } else {
      var up: nat :| up <= |done| && Climbs(done, up);
      if done != [] {
        LastOfClimb(done, up);
      }
      if part == "" || part == "." {
      } else if part == ".." && done != [] && done[|done| - 1] != ".." {
        ClimbPop(done, up);
      } else if part == ".." {
        ClimbUp(done);
      } else {
        ClimbPush(done, up, part);
      }
    }
  }

  lemma {:induction false} ResolveIsClean(rooted: bool, parts: seq<string>, done: seq<string>)
    requires AllFree(parts, '/')
    requires IsClean(FilePath(rooted, done))
    ensures IsClean(FilePath(rooted, Resolve(rooted, parts, done)))
    decreases |parts|
  {
    if parts != [] {
      ResolveOneIsClean(rooted, done, parts[0]);
      ResolveIsClean(rooted, parts[1..], ResolveOne(rooted, done, parts[0]));
    }
  }

  /** Cleaning leaves no empty, dot or inner dot-dot element. */
  lemma CleanPathIsClean(text: string)
    ensures IsClean(CleanPath(text))
  {
    assert Climbs([], 0);
    ResolveIsClean(IsRooted(text), Split(text, '/'), []);
  }

  lemma {:induction false} ResolveAppend(rooted: bool, a: seq<string>, b: seq<string>, done: seq<string>)
    ensures Resolve(rooted, a + b, done) == Resolve(rooted, b, Resolve(rooted, a, done))
    decreases |a|
  {
    if a == [] {
      assert a + b == b;
    } else {
      assert (a + b)[1..] == a[1..] + b;
      ResolveAppend(rooted, a[1..], b, ResolveOne(rooted, done, a[0]));
    }
  }

  /** Every element in front of a clean path makes a clean path. */
  lemma CleanPrefix(path: FilePath, k: nat)
    requires IsClean(path) && k <= |path.parts|
    ensures IsClean(path.(parts := path.parts[..k]))
  {
    var front := path.parts[..k];
    if !path.rooted {
      var up: nat :| up <= |path.parts| && Climbs(path.parts, up);
      var least := if up <= k then up else k;
      assert front[least..] == path.parts[least..k];
      if up <= k {
        assert front[up..] == path.parts[up..][..k - up];
      }
      assert Climbs(front, least);
    }
  }

  /** The element after a clean front is kept. */
  lemma ResolveLast(path: FilePath)
    requires IsClean(path) && path.parts != []
    ensures ResolveOne(path.rooted, Parent(path).parts, path.parts[|path.parts| - 1]) == path.parts
  {
    var n := |path.parts| - 1;
    var last, front := path.parts[n], path.parts[..n];
    assert front + [last] == path.parts;
    if !path.rooted {
      var up: nat :| up <= |path.parts| && Climbs(path.parts, up);
      if up <= n {
        assert Plain(path.parts[up..][n - up]);
      }
    }
  }

  /** Resolving a clean path changes nothing. */
  lemma {:induction false} ResolveClean(path: FilePath)
    requires IsClean(path)
    ensures Resolve(path.rooted, path.parts, []) == path.parts
    decreases |path.parts|
  {
    if path.parts != [] {
      var n := |path.parts| - 1;
      var last, front := path.parts[n], path.parts[..n];
      CleanPrefix(path, n);
      ResolveClean(Parent(path));
      assert front + [last] == path.parts;
      ResolveAppend(path.rooted, front, [last], []);
      ResolveLast(path);
    }
  }

  lemma CleanPartsFree(path: FilePath)
    requires IsClean(path)
    ensures AllFree(path.parts, '/')
    ensures forall i | 0 <= i < |path.parts| :: path.parts[i] != ""
  {
    if !path.rooted {
      var up: nat :| up <= |path.parts| && Climbs(path.parts, up);
      forall i | 0 <= i < |path.parts|
        ensures path.parts[i] != "" && Free(path.parts[i], '/')
      {
        if i >= up {
          assert Plain(path.parts[up..][i - up]);
        }
      }
    }
  }

  lemma JoinStarts(parts: seq<string>)
    requires parts != [] && parts[0] != ""
    ensures Join(parts, '/') != "" && Join(parts, '/')[0] == parts[0][0]
  {
  }

  /** How a clean path splits: an empty element in front of a rooted one, `.` for nothing at all. */
  lemma SplitOfRender(path: FilePath)
    requires IsClean(path)
    ensures IsRooted(Render(path)) == path.rooted
    ensures Split(Render(path), '/') == (if path.rooted then [""] else [])
                                        + if path.parts != [] then path.parts else if path.rooted then [""] else ["."]
  {
    CleanPartsFree(path);
    var text := Join(path.parts, '/');
    if path.parts != [] {
      SplitOfJoin(path.parts, '/');
      JoinStarts(path.parts);
      assert path.parts[0][0] != '/';
    } else {
      SplitFree("", '/');
      SplitFree(".", '/');
    }
    if path.rooted {
      SplitFree("", '/');
      SplitAtSeparator("", text, '/');
      assert "" + ['/'] + text == "/" + text;
    } else if path.parts != [] {
      assert [] + path.parts == path.parts;
    }
  }

  lemma ResolveSkip(rooted: bool, part: string, parts: seq<string>)
    requires part == "" || part == "."
    ensures Resolve(rooted, [part] + parts, []) == Resolve(rooted, parts, [])
    ensures Resolve(rooted, [part], []) == []
  {
    assert ([part] + parts)[1..] == parts;
    assert ResolveOne(rooted, [], part) == [];
  }

  /** A clean path survives printing and cleaning again. */
  lemma CleanOfRender(path: FilePath)
    requires IsClean(path)
    ensures CleanPath(Render(path)) == path
  {
    hide IsClean, Render, Resolve, Split, Join, IsRooted;
    SplitOfRender(path);
    ResolveClean(path);
    ResolveSkip(path.rooted, "", if path.parts != [] then path.parts else [""]);
    ResolveSkip(path.rooted, "", []);
    ResolveSkip(path.rooted, ".", []);
    assert [] + ["."] == ["."];
    assert [] + path.parts == path.parts;
  }

  lemma {:induction false} LastSlashOfAppend(front: string, last: string)
    requires Free(last, '/')
    requires front == "" || front[|front| - 1] == '/'
    ensures LastSlash(front + last) == |front|
    decreases |last|
  {
    if last == "" {
      assert front + last == front;
    } else {
      assert (front + last)[..|front + last| - 1] == front + last[..|last| - 1];
      LastSlashOfAppend(front, last[..|last| - 1]);
    }
  }

  /** What `Dir` leaves of a clean path before cleaning it. */
  lemma TextBeforeLast(path: FilePath)
    requires IsClean(path) && path.parts != []
    ensures var text, n := Render(path), |path.parts| - 1;
            && (n == 0 ==> text[..LastSlash(text)] == if path.rooted then "/" else "")
            && (n > 0 ==> text[..LastSlash(text)] == Render(Parent(path)) + "/")
  {
    hide IsClean, LastSlash, AllPlain;
    CleanPartsFree(path);
    var n := |path.parts| - 1;
    var last, front := path.parts[n], path.parts[..n];
    assert front + [last] == path.parts;
    var text := Render(path);
    var root := if path.rooted then "/" else "";
    if n == 0 {
      assert text == root + last;
      LastSlashOfAppend(root, last);
    } else {
      JoinSnoc(front, last, '/');
      var head := root + Join(front, '/') + "/";
      assert text == head + last;
      LastSlashOfAppend(head, last);
      assert text[..|head|] == head;
      assert head == Render(Parent(path)) + "/";
    }
  }

  /** A trailing slash does not matter. */
  lemma CleanTrailingSlash(text: string)
    requires text != ""
    ensures CleanPath(text + "/") == CleanPath(text)
  {
    SplitAtSeparator(text, "", '/');
    assert text + ['/'] + "" == text + "/";
    SplitFree("", '/');
    var rooted := IsRooted(text);
    ResolveAppend(rooted, Split(text, '/'), [""], []);
  }

  lemma CleanSmallest()
    ensures CleanPath("") == FilePath(false, [])
    ensures CleanPath("/") == FilePath(true, [])
    ensures CleanPath(".") == FilePath(false, [])
  {
    assert Climbs([], 0);
    CleanOfRender(FilePath(true, []));
    CleanOfRender(FilePath(false, []));
    SplitFree("", '/');
    ResolveSkip(false, "", []);
  }

  lemma RenderNotEmpty(path: FilePath)
    requires IsClean(path)
    ensures Render(path) != ""
  {
    if !path.rooted && path.parts != [] {
      CleanPartsFree(path);
      JoinStarts(path.parts);
    }
  }

  /** `filepath.Dir` of a clean path drops its last element. */
  lemma DirIsParent(path: FilePath)
    requires IsClean(path)
    ensures Dir(Render(path)) == Render(Parent(path))
  {
    hide IsClean, Render, Resolve, Split, Join, IsRooted, CleanPath;
    CleanSmallest();
    if path.parts == [] {
      EmptyRender(path);
    } else {
      TextBeforeLast(path);
      CleanPrefix(path, |path.parts| - 1);
      RenderNotEmpty(Parent(path));
      CleanTrailingSlash(Render(Parent(path)));
      CleanOfRender(Parent(path));
      EmptyRender(FilePath(path.rooted, []));
    }
  }

  lemma EmptyRender(path: FilePath)
    requires path.parts == []
    ensures Render(path) == if path.rooted then "/" else "."
    ensures var text := Render(path); text[..LastSlash(text)] == if path.rooted then "/" else ""
  {
    assert Join(path.parts, '/') == "";
  }

  /** Clean paths are told apart by their text. */
  lemma RenderInjective(a: FilePath, b: FilePath)
    requires IsClean(a) && IsClean(b)
    ensures Render(a) == Render(b) <==> a == b
  {
    CleanOfRender(a);
    CleanOfRender(b);
  }
}
