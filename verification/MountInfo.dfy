/**
 The mount table (section 3.5 of the Linux kernel's Documentation/filesystems/proc.rst) as
 internal/backend/fs/mount_linux.go:134-226 reads it. Characters are code points.
 */
module MountInfo {
  import opened Wrappers
  import opened Texts
  import opened Paths

  predicate IsToken(text: string) {
    text != "" && NoSpace(text)
  }

  predicate AllTokens(fields: seq<string>) {
    forall i | 0 <= i < |fields| :: IsToken(fields[i])
  }

  function SpacesLength(text: string): (n: nat)
    ensures n <= |text|
    ensures n < |text| ==> !IsSpace(text[n])
  {
    if text == "" || !IsSpace(text[0]) then 0 else 1 + SpacesLength(text[1..])
  }

  function TokenLength(text: string): (n: nat)
    ensures n <= |text|
    ensures n < |text| ==> IsSpace(text[n])
    ensures text != "" && !IsSpace(text[0]) ==> n > 0
  {
    if text == "" || IsSpace(text[0]) then 0 else 1 + TokenLength(text[1..])
  }

  /** `strings.Fields`. */
  function Fields(text: string): seq<string>
    decreases |text|
  {
    var start := text[SpacesLength(text)..];
    var n := TokenLength(start);
    if start == "" then [] else [start[..n]] + Fields(start[n..])
  }

  lemma {:induction false} TokenOfPart(part: string, rest: string)
    requires NoSpace(part)
    requires rest == "" || IsSpace(rest[0])
    ensures TokenLength(part + rest) == |part|
  {
    if part != "" {
      assert (part + rest)[1..] == part[1..] + rest;
      TokenOfPart(part[1..], rest);
    } else {
      assert part + rest == rest;
    }
  }

  lemma FieldsFirst(part: string, rest: string)
    requires IsToken(part)
    requires rest == "" || IsSpace(rest[0])
    ensures Fields(part + rest) == [part] + Fields(rest)
  {
    var text := part + rest;
    assert text[0] == part[0] && text[SpacesLength(text)..] == text;
    TokenOfPart(part, rest);
    assert text[..|part|] == part && text[|part|..] == rest;
  }

  lemma FieldsSkip(rest: string)
    ensures Fields(" " + rest) == Fields(rest)
  {
    var text := " " + rest;
    assert text[1..] == rest;
    assert text[SpacesLength(text)..] == rest[SpacesLength(rest)..];
  }

  /** Tokens printed with single spaces are read back one by one. */
  lemma {:induction false} FieldsOfJoin(fields: seq<string>)
    requires AllTokens(fields)
    ensures Fields(Join(fields, ' ')) == fields
  {
    if |fields| == 1 {
      FieldsFirst(fields[0], "");
      assert fields[0] + "" == fields[0];
    } else if fields != [] {
      var rest := Join(fields[1..], ' ');
      assert Join(fields, ' ') == fields[0] + (" " + rest);
      FieldsFirst(fields[0], " " + rest);
      FieldsSkip(rest);
      FieldsOfJoin(fields[1..]);
    }
  }

  /** What stands for a character in an escaped field. */
  function EscapeChar(c: char): string {
    if c == '\t' then "\\011"
    else if c == '\n' then "\\012"
    else if c == ' ' then "\\040"
    else if c == '\\' then "\\134"
    else [c]
  }

  /** The kernel's printing of a path or source. */
  function Escape(text: string): string {
    if text == "" then "" else EscapeChar(text[0]) + Escape(text[1..])
  }

  function Decoded(code: string): Option<char> {
    if code == "011" then Some('\t')
    else if code == "012" then Some('\n')
    else if code == "040" then Some(' ')
    else if code == "134" then Some('\\')
    else None
  }

  /** The text an escaped field stands for; `None` when an escape is cut short or is not one of the four. */
  function Unescape(value: string): Option<string>
    decreases |value|
  {
    if value == "" then
      Some("")
    else if value[0] != '\\' then
      Prepend(value[0], Unescape(value[1..]))
    else if |value| < 4 || Decoded(value[1..4]).None? then
      None
    else
      Prepend(Decoded(value[1..4]).value, Unescape(value[4..]))
  }

  function Prepend(c: char, rest: Option<string>): Option<string> {
    if rest.Some? then Some([c] + rest.value) else None
  }

  function PrependAll(text: string, rest: Option<string>): Option<string> {
    if rest.Some? then Some(text + rest.value) else None
  }

  method UnescapeMountField(value: string) returns (result: Option<string>)
    ensures result == Unescape(value)
  {
    var builder := "";
    var index := 0;
    assert value[0..] == value;
    assert Unescape(value).Some? ==> "" + Unescape(value).value == Unescape(value).value;
    while index < |value|
      invariant 0 <= index <= |value|
      invariant Unescape(value) == PrependAll(builder, Unescape(value[index..]))
    {
      var here := value[index..];
      if value[index] != '\\' {
        UnescapeAdvance(builder, here, 1, value[index]);
        assert here[1..] == value[index + 1..];
        builder := builder + [value[index]];
        index := index + 1;
      } else {
        if index + 3 >= |value| {
          return None;
        }
        var escape := value[index + 1..index + 4];
        assert here[1..4] == escape;
        var decoded := Decoded(escape);
        if decoded.None? {
          return None;
        }
        UnescapeAdvance(builder, here, 4, decoded.value);
        assert here[4..] == value[index + 4..];
        builder := builder + [decoded.value];
        index := index + 4;
      }
    }
    assert value[index..] == "";
    assert builder + "" == builder;
    return Some(builder);
  }

  lemma UnescapeAdvance(builder: string, here: string, n: nat, c: char)
    requires n <= |here|
    requires Unescape(here) == Prepend(c, Unescape(here[n..]))
    ensures PrependAll(builder, Unescape(here)) == PrependAll(builder + [c], Unescape(here[n..]))
  {
    if Unescape(here[n..]).Some? {
      assert builder + ([c] + Unescape(here[n..]).value) == builder + [c] + Unescape(here[n..]).value;
    }
  }

  lemma UnescapeOne(c: char, rest: string)
    ensures Unescape(EscapeChar(c) + rest) == Prepend(c, Unescape(rest))
  {
    var text := EscapeChar(c) + rest;
    if |EscapeChar(c)| == 4 {
      assert text[1..4] == EscapeChar(c)[1..] && text[4..] == rest;
    } else {
      assert text[1..] == rest;
    }
  }

  /** Unescaping undoes escaping, for every text. */
  lemma {:induction false} UnescapeOfEscape(text: string)
    ensures Unescape(Escape(text)) == Some(text)
  {
    if text != "" {
      UnescapeOne(text[0], Escape(text[1..]));
      UnescapeOfEscape(text[1..]);
      assert [text[0]] + text[1..] == text;
    }
  }

  lemma EscapeOfDecoded(code: string)
    requires Decoded(code).Some?
    ensures EscapeChar(Decoded(code).value) == ['\\'] + code
  {
  }

  /** On space-free fields, unescaping accepts only what escaping produces, and escaping undoes it. */
  lemma {:induction false} EscapeOfUnescape(value: string)
    requires NoSpace(value)
    requires Unescape(value).Some?
    ensures Escape(Unescape(value).value) == value
    decreases |value|
  {
    if value != "" {
      var n := if value[0] == '\\' then 4 else 1;
      EscapeOfUnescape(value[n..]);
      var text := Unescape(value).value;
      assert text[1..] == Unescape(value[n..]).value;
      assert value == value[..n] + value[n..];
      if n == 4 {
        EscapeOfDecoded(value[1..4]);
        assert value[..4] == ['\\'] + value[1..4];
      }
      assert EscapeChar(text[0]) == value[..n];
    }
  }

  /** Exactly the images of the escaper are accepted. */
  lemma UnescapeAccepts(value: string)
    requires NoSpace(value)
    ensures Unescape(value).Some? <==> exists text :: Escape(text) == value
  {
    if Unescape(value).Some? {
      EscapeOfUnescape(value);
      assert Escape(Unescape(value).value) == value;
    } else if text :| Escape(text) == value {
      UnescapeOfEscape(text);
      assert false;
    }
  }

  /** No white space except the three kinds that are escaped. */
  predicate EscapableSpaceOnly(text: string) {
    forall i | 0 <= i < |text| :: IsSpace(text[i]) ==> text[i] == '\t' || text[i] == '\n' || text[i] == ' '
  }

  lemma NoSpaceAppend(a: string, b: string)
    requires NoSpace(a) && NoSpace(b)
    ensures NoSpace(a + b)
  {
  }

  lemma {:induction false} EscapeHasNoSpace(text: string)
    requires EscapableSpaceOnly(text)
    ensures NoSpace(Escape(text))
    ensures |Escape(text)| >= |text|
  {
    if text != "" {
      EscapeHasNoSpace(text[1..]);
      NoSpaceAppend(EscapeChar(text[0]), Escape(text[1..]));
    }
  }

  const LIMIT: nat := 0x1_0000_0000

  type Word = n: nat | n < LIMIT

  datatype Device = Device(major: Word, minor: Word)

  /** The fields of Go's `mount`. */
  datatype Mount = Mount(device: Device, point: string, filesystem: string, source: string, superOptions: string)

  predicate IsDigit(c: char) {
    '0' <= c <= '9'
  }

  predicate AllDigits(text: string) {
    forall i | 0 <= i < |text| :: IsDigit(text[i])
  }

  function DecimalValue(text: string): nat
    requires AllDigits(text)
  {
    if text == "" then 0 else 10 * DecimalValue(text[..|text| - 1]) + (text[|text| - 1] as int - '0' as int)
  }

  /** `strconv.ParseUint(text, 10, 32)`. */
  function ParseWord(text: string): Option<Word> {
    if text != "" && AllDigits(text) && DecimalValue(text) < LIMIT then Some(DecimalValue(text)) else None
  }

  function Decimal(n: nat): (text: string)
    ensures text != "" && AllDigits(text)
    ensures DecimalValue(text) == n
  {
    var digit := (n % 10 + '0' as int) as char;
    if n < 10 then
      [digit]
    else
      var text := Decimal(n / 10) + [digit];
      assert text[..|text| - 1] == Decimal(n / 10);
      text
  }

  /** `parseMountDevice`. */
  function ParseMountDevice(value: string): Option<Device> {
    var n := SpanLength(value, ':');
    if n == |value| then
      None
    else
      match (ParseWord(value[..n]), ParseWord(value[n + 1..]))
      case (Some(major), Some(minor)) => Some(Device(major, minor))
      case _ => None
  }

  function PrintDevice(device: Device): string {
    Decimal(device.major) + ":" + Decimal(device.minor)
  }

  lemma ParseOfPrintDevice(device: Device)
    ensures ParseMountDevice(PrintDevice(device)) == Some(device)
    ensures IsToken(PrintDevice(device))
    ensures PrintDevice(device) != "-"
  {
    var major, minor := Decimal(device.major), Decimal(device.minor);
    var text := PrintDevice(device);
    assert text == major + (":" + minor);
    SpanOfPart(major, ":" + minor, ':');
    assert text[..|major|] == major && text[|major| + 1..] == minor;
  }

  /** The index of the first separator field, or the number of fields. */
  function SeparatorIndex(fields: seq<string>): (n: nat)
    ensures n <= |fields|
    ensures forall i | 0 <= i < n :: fields[i] != "-"
    ensures n < |fields| ==> fields[n] == "-"
  {
    if fields == [] || fields[0] == "-" then 0 else 1 + SeparatorIndex(fields[1..])
  }

  function ParseFields(fields: seq<string>): Option<Mount> {
    var separator := SeparatorIndex(fields);
    if separator == |fields| || separator < 6 || |fields| < separator + 4 then
      None
    else
      match (ParseMountDevice(fields[2]), Unescape(fields[4]), Unescape(fields[separator + 2]))
      case (Some(device), Some(point), Some(source)) =>
        Some(Mount(device, Clean(point), fields[separator + 1], source, fields[separator + 3]))
      case _ => None
  }

  method ParseMountInfoLine(line: string) returns (result: Option<Mount>)
    ensures result == ParseFields(Fields(line))
  {
    hide Fields, ParseMountDevice, Unescape, Clean;
    var fields := Fields(line);
    var separator := -1;
    var index := 0;
    while index < |fields|
      invariant 0 <= index <= |fields|
      invariant separator == -1
      invariant forall i | 0 <= i < index :: fields[i] != "-"
    {
      if fields[index] == "-" {
        separator := index;
        break;
      }
      index := index + 1;
    }
    if separator != -1 {
      SeparatorAt(fields, separator);
    } else {
      SeparatorAt(fields, |fields|);
    }
    if separator < 6 || |fields| < separator + 4 {
      return None;
    }
    var device := ParseMountDevice(fields[2]);
    if device.None? {
      return None;
    }
    var point := UnescapeMountField(fields[4]);
    if point.None? {
      return None;
    }
    var source := UnescapeMountField(fields[separator + 2]);
    if source.None? {
      return None;
    }
    return Some(Mount(device.value, Clean(point.value), fields[separator + 1], source.value, fields[separator + 3]));
  }

  lemma SeparatorAt(fields: seq<string>, n: nat)
    requires n <= |fields|
    requires forall i | 0 <= i < n :: fields[i] != "-"
    requires n < |fields| ==> fields[n] == "-"
    ensures SeparatorIndex(fields) == n
  {
  }

  /** One line of the table as the kernel means it. */
  datatype Record = Record(
    id: string,
    parent: string,
    device: Device,
    root: string,
    point: FilePath,
    options: string,
    optional: seq<string>,
    filesystem: string,
    source: string,
    superOptions: string)
  {
    /** What the parser keeps of it. */
    function Mounted(): Mount {
      Mount(device, Render(point), filesystem, source, superOptions)
    }
  }

  predicate NoneIsDash(fields: seq<string>) {
    forall i | 0 <= i < |fields| :: fields[i] != "-"
  }

  /** A record that can be printed: a clean absolute mount point, and no field that is empty or broken by space. */
  predicate Printable(record: Record) {
    && AllTokens([record.id, record.parent, record.options, record.filesystem, record.superOptions])
    && AllTokens(record.optional)
    && NoneIsDash([record.id, record.parent, record.root, record.options] + record.optional)
    && record.root != "" && EscapableSpaceOnly(record.root)
    && record.point.rooted && IsClean(record.point) && EscapableSpaceOnly(Render(record.point))
    && record.source != "" && EscapableSpaceOnly(record.source)
  }

  function Head(record: Record): seq<string> {
    [record.id, record.parent, PrintDevice(record.device), Escape(record.root), Escape(Render(record.point)),
     record.options] + record.optional
  }

  function Tail(record: Record): seq<string> {
    ["-", record.filesystem, Escape(record.source), record.superOptions]
  }

  function Print(record: Record): string {
    Join(Head(record) + Tail(record), ' ')
  }

  lemma EscapedToken(text: string)
    requires text != "" && EscapableSpaceOnly(text)
    ensures IsToken(Escape(text))
    ensures text != "-" ==> Escape(text) != "-"
  {
    EscapeHasNoSpace(text);
    UnescapeOfEscape(text);
    assert Unescape("-") == Some("-") by {
      UnescapeOne('-', "");
      assert EscapeChar('-') + "" == "-";
    }
  }

  lemma HeadFields(record: Record)
    requires Printable(record)
    ensures AllTokens(Head(record)) && NoneIsDash(Head(record))
  {
    hide IsToken, IsClean, EscapableSpaceOnly, PrintDevice, Escape;
    var first := [record.id, record.parent, record.options, record.filesystem, record.superOptions];
    assert IsToken(first[0]) && IsToken(first[1]) && IsToken(first[2]);
    var named := [record.id, record.parent, record.root, record.options] + record.optional;
    assert named[0] != "-" && named[1] != "-" && named[2] != "-" && named[3] != "-";
    assert forall i | 0 <= i < |record.optional| :: record.optional[i] == named[4 + i];
    ParseOfPrintDevice(record.device);
    EscapedToken(record.root);
    assert Render(record.point)[0] == '/';
    EscapedToken(Render(record.point));
  }

  lemma TailFields(record: Record)
    requires Printable(record)
    ensures AllTokens(Tail(record))
  {
    var first := [record.id, record.parent, record.options, record.filesystem, record.superOptions];
    assert IsToken(first[3]) && IsToken(first[4]);
    EscapedToken(record.source);
  }

  /** Printing a record and parsing the line gives back the fields the parser keeps. */
  lemma ParseOfPrint(record: Record)
    requires Printable(record)
    ensures ParseFields(Fields(Print(record))) == Some(record.Mounted())
  {
    hide AllTokens, NoneIsDash, Unescape, Escape, ParseMountDevice, Fields, Join, SeparatorIndex;
    HeadFields(record);
    TailFields(record);
    var head, tail := Head(record), Tail(record);
    var fields := head + tail;
    AllTokensAppend(head, tail);
    FieldsOfJoin(fields);
    SeparatorAfter(head, tail);
    ParseOfPrintDevice(record.device);
    UnescapeOfEscape(Render(record.point));
    UnescapeOfEscape(record.source);
    CleanOfRender(record.point);
  }

  lemma AllTokensAppend(a: seq<string>, b: seq<string>)
    requires AllTokens(a) && AllTokens(b)
    ensures AllTokens(a + b)
  {
  }

  lemma SeparatorAfter(head: seq<string>, tail: seq<string>)
    requires NoneIsDash(head) && tail != [] && tail[0] == "-"
    ensures SeparatorIndex(head + tail) == |head|
  {
    SeparatorAt(head + tail, |head|);
  }

  /** One line as the kernel writes it, and what it means. */
  const EXAMPLE := Record(
    "36", "35", Device(98, 0), "/a", FilePath(true, ["mnt b"]), "rw", ["master:1"], "9p", "C:\\", "rw,aname=drvfs")

  lemma EscapedExamples()
    ensures Escape("/a") == "/a"
    ensures Escape("/mnt b") == "/mnt\\040b"
    ensures Escape("C:\\") == "C:\\134"
  {
    EscapeFirst("/a");
    EscapeFirst("a");
    EscapeFirst("/mnt b");
    EscapeFirst("mnt b");
    EscapeFirst("nt b");
    EscapeFirst("t b");
    EscapeFirst(" b");
    EscapeFirst("b");
    EscapeFirst("C:\\");
    EscapeFirst(":\\");
    EscapeFirst("\\");
  }

  lemma EscapeFirst(text: string)
    requires text != ""
    ensures Escape(text) == EscapeChar(text[0]) + Escape(text[1..])
  {
  }

  lemma DecimalExamples()
    ensures Decimal(98) == "98" && Decimal(0) == "0"
  {
    assert Decimal(98) == Decimal(9) + "8";
  }

  lemma ExampleColumns()
    ensures Head(EXAMPLE) + Tail(EXAMPLE) ==
            ["36", "35", "98:0", "/a", "/mnt\\040b", "rw", "master:1", "-", "9p", "C:\\134", "rw,aname=drvfs"]
  {
    hide Escape, Decimal, Render;
    EscapedExamples();
    DecimalExamples();
    ExampleRendered();
    assert PrintDevice(EXAMPLE.device) == "98:0";
    assert Head(EXAMPLE) == ["36", "35", "98:0", "/a", "/mnt\\040b", "rw", "master:1"];
    assert Tail(EXAMPLE) == ["-", "9p", "C:\\134", "rw,aname=drvfs"];
  }

  /** The columns of a line, in their order. */
  lemma PrintedExample()
    ensures Print(EXAMPLE) ==
            Join(["36", "35", "98:0", "/a", "/mnt\\040b", "rw", "master:1", "-", "9p", "C:\\134", "rw,aname=drvfs"], ' ')
  {
    hide Head, Tail, Join;
    ExampleColumns();
  }

  /** What the parser keeps of that line. */
  lemma ParsedExample()
    ensures ParseFields(Fields(Print(EXAMPLE))) == Some(Mount(Device(98, 0), "/mnt b", "9p", "C:\\", "rw,aname=drvfs"))
  {
    hide ParseFields, Fields, Print, Printable;
    ExampleIsPrintable();
    ExampleRendered();
    ParseOfPrint(EXAMPLE);
  }

  lemma ExampleRendered()
    ensures Render(EXAMPLE.point) == "/mnt b"
  {
    assert EXAMPLE.point == FilePath(true, ["mnt b"]);
  }

  lemma ExampleTokens()
    ensures AllTokens(["36", "35", "rw", "9p", "rw,aname=drvfs"]) && AllTokens(["master:1"])
    ensures EscapableSpaceOnly("/a") && EscapableSpaceOnly("/mnt b") && EscapableSpaceOnly("C:\\")
  {
  }

  lemma ExampleIsPrintable()
    ensures Printable(EXAMPLE)
  {
    hide AllTokens, EscapableSpaceOnly;
    ExampleTokens();
    ExampleRendered();
  }
}
