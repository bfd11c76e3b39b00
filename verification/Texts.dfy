/** Splitting and joining text at one character, and white space. */
module Texts {
  import opened Wrappers

  predicate Free<T(==)>(part: seq<T>, c: T) {
    forall i | 0 <= i < |part| :: part[i] != c
  }

  predicate AllFree(parts: seq<string>, c: char) {
    forall i | 0 <= i < |parts| :: Free(parts[i], c)
  }

  function Join(parts: seq<string>, c: char): string {
    if parts == [] then
      ""
    else if |parts| == 1 then
      parts[0]
    else
      parts[0] + [c] + Join(parts[1..], c)
  }

  /** The number of characters before the first `c`. */
  function SpanLength<T(==)>(text: seq<T>, c: T): (n: nat)
    ensures n <= |text|
    ensures Free(text[..n], c)
    ensures n < |text| ==> text[n] == c
  {
    if text == [] || text[0] == c then 0 else 1 + SpanLength(text[1..], c)
  }

  /** `strings.Split` at one character. */
  function Split(text: string, c: char): (parts: seq<string>)
    ensures parts != []
    ensures AllFree(parts, c)
    decreases |text|
  {
    var n := SpanLength(text, c);
    if n == |text| then [text] else [text[..n]] + Split(text[n + 1..], c)
  }

  lemma {:induction false} SpanOfPart<T>(part: seq<T>, rest: seq<T>, c: T)
    requires Free(part, c)
    requires rest == [] || rest[0] == c
    ensures SpanLength(part + rest, c) == |part|
  {
    if part != [] {
      assert (part + rest)[1..] == part[1..] + rest;
      SpanOfPart(part[1..], rest, c);
    } else {
      assert part + rest == rest;
    }
  }

  /** What stands before the first separator and what follows it are determined. */
  lemma FirstSeparator<T>(a: seq<T>, b: seq<T>, rest: seq<T>, more: seq<T>, c: T)
    requires Free(a, c) && Free(b, c)
    requires a + [c] + rest == b + [c] + more
    ensures a == b && rest == more
  {
    var whole := a + [c] + rest;
    assert whole == a + ([c] + rest) && whole == b + ([c] + more);
    SpanOfPart(a, [c] + rest, c);
    SpanOfPart(b, [c] + more, c);
    assert a == whole[..|a|] && b == whole[..|b|];
    assert rest == whole[|a| + 1..] && more == whole[|b| + 1..];
  }

  lemma SplitFree(part: string, c: char)
    requires Free(part, c)
    ensures Split(part, c) == [part]
  {
    SpanOfPart(part, "", c);
    assert part + "" == part;
  }

  lemma SplitFirst(part: string, rest: string, c: char)
    requires Free(part, c)
    ensures Split(part + [c] + rest, c) == [part] + Split(rest, c)
  {
    var text := part + [c] + rest;
    assert text == part + ([c] + rest);
    SpanOfPart(part, [c] + rest, c);
    assert text[|part| + 1..] == rest && text[..|part|] == part;
  }

  /** A separator between two texts splits them independently. */
  lemma {:induction false} SplitAtSeparator(a: string, b: string, c: char)
    ensures Split(a + [c] + b, c) == Split(a, c) + Split(b, c)
    decreases |a|
  {
    var n := SpanLength(a, c);
    var part := a[..n];
    if n == |a| {
      assert part == a;
      SplitFirst(a, b, c);
    } else {
      var rest := a[n + 1..];
      assert a == part + [c] + rest;
      assert a + [c] + b == part + [c] + (rest + [c] + b);
      SplitFirst(part, rest + [c] + b, c);
      SplitAtSeparator(rest, b, c);
      assert [part] + (Split(rest, c) + Split(b, c)) == Split(a, c) + Split(b, c);
    }
  }

  /** Splitting undoes joining. */
  lemma {:induction false} SplitOfJoin(parts: seq<string>, c: char)
    requires parts != [] && AllFree(parts, c)
    ensures Split(Join(parts, c), c) == parts
  {
    SplitFree(parts[0], c);
    if |parts| > 1 {
      SplitAtSeparator(parts[0], Join(parts[1..], c), c);
      SplitOfJoin(parts[1..], c);
    }
  }

  lemma JoinFirst(part: string, rest: seq<string>, c: char)
    requires rest != []
    ensures Join([part] + rest, c) == part + [c] + Join(rest, c)
  {
    assert ([part] + rest)[1..] == rest;
  }

  /** Joining undoes splitting. */
  lemma {:induction false} JoinOfSplit(text: string, c: char)
    ensures Join(Split(text, c), c) == text
    decreases |text|
  {
    hide SpanLength, Free, Join;
    var n := SpanLength(text, c);
    if n < |text| {
      JoinOfSplit(text[n + 1..], c);
      JoinFirst(text[..n], Split(text[n + 1..], c), c);
      assert text == text[..n] + [c] + text[n + 1..];
    } else {
      assert text == text[..n] && Join([text], c) == text by {
        JoinOne(text, c);
      }
    }
  }

  lemma JoinOne(part: string, c: char)
    ensures Join([part], c) == part
  {
  }

  /** Joining one more part at the end. */
  lemma {:induction false} JoinSnoc(parts: seq<string>, part: string, c: char)
    requires parts != []
    ensures Join(parts + [part], c) == Join(parts, c) + [c] + part
  {
    if |parts| == 1 {
      assert (parts + [part])[1..] == [part];
    } else {
      assert (parts + [part])[1..] == parts[1..] + [part];
      JoinSnoc(parts[1..], part, c);
    }
  }

  /** `unicode.IsSpace`. */
  predicate IsSpace(c: char) {
    var n := c as int;
    9 <= n <= 13 || n == 0x20 || n == 0x85 || n == 0xA0 || n == 0x1680 || 0x2000 <= n <= 0x200A
    || n == 0x2028 || n == 0x2029 || n == 0x202F || n == 0x205F || n == 0x3000
  }

  predicate NoSpace(text: string) {
    forall i | 0 <= i < |text| :: !IsSpace(text[i])
  }
}
