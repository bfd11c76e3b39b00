/** Which mount governs a path, and the refusal of DrvFS: internal/backend/fs/mount_linux.go:68-132, 228-272. */
module MountSelection {
  import opened Wrappers
  import opened Errors
  import opened Texts
  import opened Paths
  import opened MountInfo
  import opened MountTable

  // ---- Being below a mount point ----

  predicate PathWithinMount(path: string, point: string) {
    match Rel(point, path)
    case None => false
    case Some(relative) => relative != ".." && !("../" <= relative)
  }

  lemma StartsWithUp(parts: seq<string>)
    requires parts != [] && AllFree(parts, '/')
    ensures var text := Texts.Join(parts, '/'); (text == ".." || "../" <= text) <==> parts[0] == ".."
  {
    var text := Texts.Join(parts, '/');
    SplitOfJoin(parts, '/');
    SplitFree("..", '/');
    if "../" <= text {
      assert text == ".." + ['/'] + text[3..];
      SplitFirst("..", text[3..], '/');
    }
  }

  /** The textual test is the component-wise one: a path is within a mount exactly when the point is its prefix. */
  lemma WithinIsPrefix(path: FilePath, point: FilePath)
    requires IsClean(path) && IsClean(point) && path.rooted
    ensures PathWithinMount(Render(path), Render(point)) <==> point.rooted && point.parts <= path.parts
  {
    hide Render, Texts.Join, CleanPath;
    CleanOfRender(path);
    CleanOfRender(point);
    var n := CommonLength(point.parts, path.parts);
    if point != path && point.rooted {
      var parts := Ups(|point.parts| - n) + path.parts[n..];
      CleanPartsFree(path);
      StartsWithUp(parts);
      if n == |point.parts| {
        assert parts == path.parts[n..] && Plain(parts[0]);
      }
    }
  }

  lemma {:induction false} PrefixIsShorter(parts: seq<string>, i: nat, j: nat)
    requires i < j <= |parts|
    requires forall k | 0 <= k < |parts| :: parts[k] != ""
    ensures |Texts.Join(parts[..i], '/')| < |Texts.Join(parts[..j], '/')|
    decreases j
  {
    var last := parts[j - 1];
    if j == 1 {
      assert parts[..j] == [last];
    } else {
      assert parts[..j] == parts[..j - 1] + [last];
      JoinSnoc(parts[..j - 1], last, '/');
      if i < j - 1 {
        PrefixIsShorter(parts, i, j - 1);
      }
    }
  }

  /** Among the prefixes of one path the length of the text orders as the depth does. */
  lemma LengthIsDepth(path: FilePath, a: FilePath, b: FilePath)
    requires IsClean(path) && path.rooted && a.rooted && b.rooted
    requires a.parts <= path.parts && b.parts <= path.parts
    ensures |Render(a)| < |Render(b)| <==> |a.parts| < |b.parts|
    ensures |Render(a)| == |Render(b)| <==> a == b
  {
    assert a.parts == path.parts[..|a.parts|] && b.parts == path.parts[..|b.parts|];
    if |a.parts| < |b.parts| {
      PrefixIsShorter(path.parts, |a.parts|, |b.parts|);
    } else if |b.parts| < |a.parts| {
      PrefixIsShorter(path.parts, |b.parts|, |a.parts|);
    }
  }

  // ---- Selection ----

  predicate Candidate(mount: Mount, path: string, device: Device) {
    mount.device == device && PathWithinMount(path, mount.point)
  }

  /** The last-listed of the candidates with the longest point. */
  predicate Chosen(mounts: seq<Mount>, path: string, device: Device, k: nat) {
    && k < |mounts|
    && Candidate(mounts[k], path, device)
    && forall i | 0 <= i < |mounts| && Candidate(mounts[i], path, device) ::
         |mounts[i].point| < |mounts[k].point| || (|mounts[i].point| == |mounts[k].point| && i <= k)
  }

  method SelectMount(mounts: seq<Mount>, path: string, device: Device) returns (selected: Option<Mount>)
    ensures selected.None? <==> forall i | 0 <= i < |mounts| :: !Candidate(mounts[i], path, device)
    ensures selected.Some? ==> exists k | 0 <= k < |mounts| :: Chosen(mounts, path, device, k) && selected.value == mounts[k]
  {
    hide PathWithinMount;
    selected := None;
    var index := 0;
    ghost var best := 0;
    while index < |mounts|
      invariant 0 <= index <= |mounts|
      invariant selected.None? <==> forall i | 0 <= i < index :: !Candidate(mounts[i], path, device)
      invariant selected.Some? ==> Chosen(mounts[..index], path, device, best) && selected.value == mounts[best]
    {
      var candidate := mounts[index];
      assert mounts[..index + 1] == mounts[..index] + [candidate];
      if candidate.device == device && PathWithinMount(path, candidate.point) {
        if selected.None? || |candidate.point| >= |selected.value.point| {
          selected := Some(candidate);
          best := index;
        }
      }
      index := index + 1;
    }
    assert mounts[..index] == mounts;
  }

  /** Component-wise: the mount is of this device and its point is an ancestor of the path or the path. */
  predicate Holds(mount: Mount, path: FilePath, device: Device) {
    var point := CleanPath(mount.point);
    mount.device == device && point.rooted && point.parts <= path.parts
  }

  /** The last-listed of the deepest mounts that hold a path. */
  predicate Governs(mounts: seq<Mount>, path: FilePath, device: Device, k: nat) {
    && k < |mounts|
    && Holds(mounts[k], path, device)
    && forall i | 0 <= i < |mounts| && Holds(mounts[i], path, device) ::
         var depth, deepest := |CleanPath(mounts[i].point).parts|, |CleanPath(mounts[k].point).parts|;
         depth < deepest || (depth == deepest && i <= k)
  }

  lemma CandidateHolds(mount: Mount, path: FilePath, device: Device)
    requires IsClean(path) && path.rooted && IsCleanText(mount.point)
    ensures Candidate(mount, Render(path), device) <==> Holds(mount, path, device)
  {
    WithinIsPrefix(path, CleanPath(mount.point));
  }

  /** The longest text chosen by the program is the deepest component-wise ancestor, ties to the last listed. */
  lemma ChosenGoverns(mounts: seq<Mount>, path: FilePath, device: Device, k: nat)
    requires IsClean(path) && path.rooted
    requires forall mount <- mounts :: IsCleanText(mount.point)
    ensures Chosen(mounts, Render(path), device, k) <==> Governs(mounts, path, device, k)
  {
    hide Candidate, Render, CleanPath, IsClean;
    forall i | 0 <= i < |mounts|
      ensures Candidate(mounts[i], Render(path), device) <==> Holds(mounts[i], path, device)
    {
      CandidateHolds(mounts[i], path, device);
    }
    if k < |mounts| && Holds(mounts[k], path, device) {
      forall i | 0 <= i < |mounts| && Holds(mounts[i], path, device)
        ensures var a, b := CleanPath(mounts[i].point), CleanPath(mounts[k].point);
                && (|mounts[i].point| < |mounts[k].point| <==> |a.parts| < |b.parts|)
                && (|mounts[i].point| == |mounts[k].point| <==> |a.parts| == |b.parts|)
      {
        var a, b := CleanPath(mounts[i].point), CleanPath(mounts[k].point);
        LengthIsDepth(path, a, b);
        LengthIsDepth(path, b, a);
        RenderOfCleanText(mounts[i].point);
        RenderOfCleanText(mounts[k].point);
      }
    }
  }

  lemma RenderOfCleanText(text: string)
    requires IsCleanText(text)
    ensures Render(CleanPath(text)) == text
  {
  }

  /** At most one mount governs a path. */
  lemma OneGoverns(mounts: seq<Mount>, path: FilePath, device: Device, j: nat, k: nat)
    requires Governs(mounts, path, device, j) && Governs(mounts, path, device, k)
    ensures j == k
  {
  }

  // ---- DrvFS ----

  /** Simple case folding onto a lower-case ASCII text: the long s and the Kelvin sign fold to `s` and `k`. */
  predicate FoldsTo(c: char, lower: char) {
    || c == lower
    || ('a' <= lower <= 'z' && c as int == lower as int - 32)
    || (lower == 's' && c == '\U{017F}')
    || (lower == 'k' && c == '\U{212A}')
  }

  predicate EqualFold(text: string, lower: string) {
    |text| == |lower| && forall i | 0 <= i < |text| :: FoldsTo(text[i], lower[i])
  }

  /** `unicode.ToLower`, for the characters whose lower case is ASCII. */
  function LowerChar(c: char): char {
    if 'A' <= c <= 'Z' then (c as int + 32) as char
    else if c == '\U{0130}' then 'i'
    else if c == '\U{212A}' then 'k'
    else c
  }

  function Lower(text: string): (lower: string)
    ensures |lower| == |text| && forall i | 0 <= i < |text| :: lower[i] == LowerChar(text[i])
  {
    if text == "" then "" else [LowerChar(text[0])] + Lower(text[1..])
  }

  const DRVFS := "drvfs"
  const DRVFS_OPTION := "aname=drvfs"

  /** A 9p option naming DrvFS, alone or with further settings behind a semicolon. */
  predicate NamesDrvFS(option: string) {
    Lower(option) == DRVFS_OPTION || DRVFS_OPTION + ";" <= Lower(option)
  }

  // What a DrvFS mount is, spelled out.

  /** The same ASCII letter, or the same character. */
  predicate SameLetter(c: char, lower: char) {
    c == lower || ('a' <= lower <= 'z' && c as int + 32 == lower as int)
  }

  /** `word`, up to the case of ASCII letters. */
  predicate Spells(text: string, word: string) {
    |text| == |word| && forall i | 0 <= i < |text| :: SameLetter(text[i], word[i])
  }

  /** Simple folding also takes the long s for the last letter. */
  predicate SpellsDrvFS(text: string) {
    Spells(text, "drvfs") || (|text| == 5 && Spells(text[..4], "drvf") && text[4] == '\U{017F}')
  }

  predicate OptionForWindows(option: string) {
    Spells(option, "aname=drvfs") || (|option| >= 12 && Spells(option[..12], "aname=drvfs;"))
  }

  /** The type or the source is `drvfs`, or a 9p mount has an option that says so, wherever it stands. */
  ghost predicate OnWindows(mount: Mount) {
    || SpellsDrvFS(mount.filesystem)
    || SpellsDrvFS(mount.source)
    || (mount.filesystem == "9p" && WindowsAmong(mount.superOptions))
  }

  ghost predicate WindowsAmong(options: string) {
    exists before: seq<string>, option: string, after: seq<string> ::
      options == Texts.Join(before + [option] + after, ',') && Free(option, ',') && OptionForWindows(option)
  }

  /** ASCII, in lower case, and nothing but its capital is lowered to it. */
  predicate SimpleLetter(lower: char) {
    lower <= '~' && lower != 'i' && lower != 'k' && !('A' <= lower <= 'Z')
  }

  predicate Simple(word: string) {
    forall i | 0 <= i < |word| :: SimpleLetter(word[i])
  }

  lemma LowerSpells(text: string, word: string)
    requires Simple(word)
    ensures Lower(text) == word <==> Spells(text, word)
  {
    forall i | 0 <= i < |text| && i < |word|
      ensures Lower(text)[i] == word[i] <==> SameLetter(text[i], word[i])
    {
      LowerIsLetter(text[i], word[i]);
    }
  }

  lemma LowerIsLetter(c: char, lower: char)
    requires SimpleLetter(lower)
    ensures LowerChar(c) == lower <==> SameLetter(c, lower)
  {
    if 'A' <= c <= 'Z' {
      assert ((c as int + 32) as char) as int == c as int + 32;
    }
  }

  lemma LowerBegins(text: string, word: string)
    requires Simple(word)
    ensures word <= Lower(text) <==> |text| >= |word| && Spells(text[..|word|], word)
  {
    hide Spells, LowerChar, Simple;
    if |text| >= |word| {
      LowerSpells(text[..|word|], word);
      LowerPrefix(text, |word|);
    }
  }

  lemma LowerPrefix(text: string, n: nat)
    requires n <= |text|
    ensures Lower(text[..n]) == Lower(text)[..n]
  {
    hide LowerChar;
  }

  lemma OptionNamed(option: string)
    ensures NamesDrvFS(option) <==> OptionForWindows(option)
  {
    hide Lower, Spells;
    LowerSpells(option, "aname=drvfs");
    LowerBegins(option, "aname=drvfs;");
    assert DRVFS_OPTION + ";" == "aname=drvfs;";
  }

  lemma FoldSpells(text: string)
    ensures EqualFold(text, DRVFS) <==> SpellsDrvFS(text)
  {
    if |text| == 5 {
      assert text[..4][0] == text[0] && text[..4][1] == text[1] && text[..4][2] == text[2] && text[..4][3] == text[3];
    }
  }

  /** An option among the joined ones is found by splitting them. */
  lemma {:induction false} OptionIsSplit(before: seq<string>, option: string, after: seq<string>)
    requires Free(option, ',')
    ensures option in Split(Texts.Join(before + [option] + after, ','), ',')
  {
    hide Free;
    var all := before + [option] + after;
    if before == [] {
      if after == [] {
        assert all == [option];
        SplitFree(option, ',');
      } else {
        assert all == [option] + after;
        JoinFirst(option, after, ',');
        SplitFirst(option, Texts.Join(after, ','), ',');
      }
    } else {
      var rest := before[1..] + [option] + after;
      assert all == [before[0]] + rest;
      JoinFirst(before[0], rest, ',');
      SplitAtSeparator(before[0], Texts.Join(rest, ','), ',');
      OptionIsSplit(before[1..], option, after);
    }
  }

  lemma SplitIsOption(options: string, option: string)
    requires option in Split(options, ',')
    ensures exists before: seq<string>, after: seq<string> :: options == Texts.Join(before + [option] + after, ',')
    ensures Free(option, ',')
  {
    var parts := Split(options, ',');
    var i :| 0 <= i < |parts| && parts[i] == option;
    JoinOfSplit(options, ',');
    assert parts == parts[..i] + [option] + parts[i + 1..];
  }

  lemma WindowsOptionsSplit(options: string)
    ensures WindowsAmong(options) <==> exists option <- Split(options, ',') :: NamesDrvFS(option)
  {
    hide Split, Texts.Join, NamesDrvFS, OptionForWindows, Free;
    if WindowsAmong(options) {
      var before: seq<string>, option: string, after: seq<string> :|
        options == Texts.Join(before + [option] + after, ',') && Free(option, ',') && OptionForWindows(option);
      OptionIsSplit(before, option, after);
      OptionNamed(option);
    }
    forall option <- Split(options, ',')
      ensures NamesDrvFS(option) ==> WindowsAmong(options)
    {
      SplitIsOption(options, option);
      OptionNamed(option);
    }
  }

  /** True exactly for what the definition above describes. */
  method IsDrvFS(mount: Mount) returns (result: bool)
    ensures result <==> OnWindows(mount)
  {
    hide NamesDrvFS, EqualFold, Split, WindowsAmong, SpellsDrvFS;
    FoldSpells(mount.filesystem);
    FoldSpells(mount.source);
    WindowsOptionsSplit(mount.superOptions);
    if EqualFold(mount.filesystem, DRVFS) || EqualFold(mount.source, DRVFS) {
      return true;
    }
    if mount.filesystem != "9p" {
      return false;
    }
    var options := Split(mount.superOptions, ',');
    for index := 0 to |options|
      invariant forall i | 0 <= i < index :: !NamesDrvFS(options[i])
    {
      var option := Lower(options[index]);
      NamesLower(options[index]);
      if option == DRVFS_OPTION || DRVFS_OPTION + ";" <= option {
        return true;
      }
    }
    return false;
  }

  lemma NamesLower(option: string)
    ensures NamesDrvFS(option) <==> Lower(option) == DRVFS_OPTION || DRVFS_OPTION + ";" <= Lower(option)
  {
  }
}
