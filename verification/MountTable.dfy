/** Reading the whole mount table: internal/backend/fs/mount_linux.go:134-149 over Go's bufio.Scanner. */
module MountTable {
  import opened Wrappers
  import opened Errors
  import opened Texts
  import opened Paths
  import opened MountInfo
  import Unicode

  /** `maximumMountInfoLine`. */
  const MAXIMUM_LINE: nat := 1024 * 1024

  const MALFORMED := Other(1, true)
  const TOO_LONG := Other(2, true)

  /** What can be read: some text, and the error that ends it if reading fails. */
  datatype Reader = Reader(text: string, failure: Option<Error>)

  predicate Overlong(raw: string) {
    |Unicode.Encode(raw)| >= MAXIMUM_LINE
  }

  function DropReturn(raw: string): string {
    if raw != "" && raw[|raw| - 1] == '\r' then raw[..|raw| - 1] else raw
  }

  function AfterLine(text: string): (rest: string)
    ensures text != "" ==> |rest| < |text|
  {
    var n := SpanLength(text, '\n');
    if n == |text| then "" else text[n + 1..]
  }

  function FirstLine(text: string): string {
    text[..SpanLength(text, '\n')]
  }

  /** The records of a table; `None` when a line is too long or is not a record. */
  function ParseText(text: string): Option<seq<Mount>>
    decreases |text|
  {
    if text == "" then
      Some([])
    else if Overlong(FirstLine(text)) then
      None
    else
      match (ParseFields(Fields(DropReturn(FirstLine(text)))), ParseText(AfterLine(text)))
      case (Some(entry), Some(rest)) => Some([entry] + rest)
      case _ => None
  }

  function Prefixed(mounts: seq<Mount>, rest: Option<seq<Mount>>): Option<seq<Mount>> {
    if rest.Some? then Some(mounts + rest.value) else None
  }

  method ParseMountInfo(contents: Reader) returns (result: Result<seq<Mount>, Error>)
    ensures result.Success? <==> ParseText(contents.text).Some? && contents.failure.None?
    ensures result.Success? ==> ParseText(contents.text) == Some(result.value)
    ensures ParseText(contents.text).Some? && contents.failure.Some? ==> result == Failure(contents.failure.value)
    ensures ParseText(contents.text).None? ==> result == Failure(TOO_LONG) || result == Failure(MALFORMED)
  {
    hide ParseFields, Fields, AfterLine, FirstLine, Overlong;
    var mounts := [];
    var rest := contents.text;
    PrefixedNothing(contents.text);
    while rest != ""
      invariant ParseText(contents.text) == Prefixed(mounts, ParseText(rest))
      decreases |rest|
    {
      if Overlong(FirstLine(rest)) {
        return Failure(TOO_LONG);
      }
      var entry := ParseMountInfoLine(DropReturn(FirstLine(rest)));
      if entry.None? {
        return Failure(MALFORMED);
      }
      PrefixedStep(mounts, entry.value, ParseText(AfterLine(rest)));
      mounts := mounts + [entry.value];
      rest := AfterLine(rest);
    }
    assert mounts + [] == mounts;
    if contents.failure.Some? {
      return Failure(contents.failure.value);
    }
    return Success(mounts);
  }

  lemma PrefixedNothing(text: string)
    ensures ParseText(text) == Prefixed([], ParseText(text))
  {
    hide ParseText;
    assert ParseText(text).Some? ==> [] + ParseText(text).value == ParseText(text).value;
  }

  lemma PrefixedStep(mounts: seq<Mount>, entry: Mount, rest: Option<seq<Mount>>)
    ensures Prefixed(mounts, Prefixed([entry], rest)) == Prefixed(mounts + [entry], rest)
  {
    if rest.Some? {
      assert mounts + ([entry] + rest.value) == mounts + [entry] + rest.value;
    }
  }

  predicate IsCleanText(text: string) {
    IsClean(CleanPath(text)) && Render(CleanPath(text)) == text
  }

  lemma CleanIsCleanText(text: string)
    ensures IsCleanText(Clean(text))
  {
    CleanPathIsClean(text);
    CleanOfRender(CleanPath(text));
  }

  /** Every parsed mount point is a clean path. */
  lemma {:induction false} ParsedPointsAreClean(text: string)
    requires ParseText(text).Some?
    ensures forall mount <- ParseText(text).value :: IsCleanText(mount.point)
    decreases |text|
  {
    hide Fields, Clean, IsCleanText;
    if text != "" {
      var fields := Fields(DropReturn(FirstLine(text)));
      var n := SeparatorIndex(fields);
      CleanIsCleanText(Unescape(fields[4]).value);
      ParsedPointsAreClean(AfterLine(text));
    }
  }

  /** A table as the kernel prints it: one record a line. */
  function PrintTable(records: seq<Record>): string {
    if records == [] then "" else Print(records[0]) + "\n" + PrintTable(records[1..])
  }

  function MountsOf(records: seq<Record>): (mounts: seq<Mount>)
    ensures |mounts| == |records|
    ensures forall i | 0 <= i < |records| :: mounts[i] == records[i].Mounted()
  {
    if records == [] then [] else [records[0].Mounted()] + MountsOf(records[1..])
  }

  predicate PrintableTable(records: seq<Record>) {
    forall i | 0 <= i < |records| :: Printable(records[i]) && !Overlong(Print(records[i]))
  }

  lemma {:induction false} JoinedTokens(fields: seq<string>)
    requires fields != [] && AllTokens(fields)
    ensures var text := Texts.Join(fields, ' ');
            && text != "" && Free(text, '\n') && !IsSpace(text[|text| - 1])
  {
    if |fields| > 1 {
      JoinedTokens(fields[1..]);
    }
  }

  lemma PrintedLine(record: Record, rest: string)
    requires Printable(record)
    ensures var text := Print(record) + "\n" + rest;
            FirstLine(text) == Print(record) && AfterLine(text) == rest && DropReturn(Print(record)) == Print(record)
  {
    hide Printable;
    HeadFields(record);
    TailFields(record);
    AllTokensAppend(Head(record), Tail(record));
    JoinedTokens(Head(record) + Tail(record));
    var text := Print(record) + "\n" + rest;
    assert text == Print(record) + ("\n" + rest);
    SpanOfPart(Print(record), "\n" + rest, '\n');
  }

  /** Reading a printed table gives every record, in order. */
  lemma {:induction false} ParseOfPrintTable(records: seq<Record>)
    requires PrintableTable(records)
    ensures ParseText(PrintTable(records)) == Some(MountsOf(records))
  {
    hide Printable, ParseFields, Fields, Print, Overlong, AfterLine, FirstLine, DropReturn;
    if records != [] {
      assert Printable(records[0]);
      PrintedLine(records[0], PrintTable(records[1..]));
      ParseOfPrint(records[0]);
      ParseOfPrintTable(records[1..]);
    }
  }
}
