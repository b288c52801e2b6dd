/** Lines and single entries of a server.properties file
    (internal/minecraft/properties.go:26-43, 86-108). */
module PropertyLines {
  import opened Wrappers
  import opened Text

  datatype Failure = CannotOpen | LineTooLong

  /** The scanner gives up on a line whose bytes fill its 64 KiB buffer. */
  const LINE_LIMIT := 65536

  // ---------------------------------------------------------------- lines

  /** The text split at newlines; a text that ends in one has no empty last line. */
  function RawLines(text: string): seq<string> {
    var i := Index(text, '\n');
    if i == |text| then if text == [] then [] else [text]
    else [text[..i]] + RawLines(text[i + 1..])
  }

  /** The position of the first `c`, or the length. */
  function Index(s: string, c: char): (i: nat)
    ensures i <= |s| && c !in s[..i] && (i < |s| ==> s[i] == c)
  {
    if s == [] || s[0] == c then 0
    else
      var i := 1 + Index(s[1..], c);
      assert s[..i] == [s[0]] + s[1..][..i - 1];
      i
  }

  lemma {:induction false} IndexIsFirst(s: string, rest: string, c: char)
    requires c !in s
    ensures Index(s + [c] + rest, c) == |s|
  {
    if s != [] {
      assert (s + [c] + rest)[1..] == s[1..] + [c] + rest;
      IndexIsFirst(s[1..], rest, c);
    }
  }

  function DropReturn(line: string): string {
    if line != [] && line[|line| - 1] == '\r' then line[..|line| - 1] else line
  }

  function DropReturns(lines: seq<string>): seq<string> {
    seq(|lines|, i requires 0 <= i < |lines| => DropReturn(lines[i]))
  }

  predicate Short(lines: seq<string>) {
    forall i :: 0 <= i < |lines| ==> Utf8Size(lines[i]) < LINE_LIMIT
  }

  /** What the line scanner yields. */
  function Scanned(text: string): Result<seq<string>, Failure> {
    if Short(RawLines(text)) then Ok(DropReturns(RawLines(text))) else Err(LineTooLong)
  }

  function Unlines(lines: seq<string>): string {
    if lines == [] then [] else lines[0] + ['\n'] + Unlines(lines[1..])
  }

  predicate OneLine(s: string) {
    '\n' !in s
  }

  ghost predicate OneLineEach(lines: seq<string>) {
    forall i :: 0 <= i < |lines| ==> OneLine(lines[i])
  }

  lemma {:induction false} RawLinesAreLines(text: string)
    ensures OneLineEach(RawLines(text))
    decreases |text|
  {
    var i := Index(text, '\n');
    if i < |text| {
      RawLinesAreLines(text[i + 1..]);
    } else {
      assert text[..i] == text;
    }
  }

  /** Lines written out are split up the same way again. */
  lemma {:induction false} LinesRoundTrip(lines: seq<string>)
    requires OneLineEach(lines)
    ensures RawLines(Unlines(lines)) == lines
  {
    if lines != [] {
      assert OneLine(lines[0]);
      LineComesFirst(lines[0], Unlines(lines[1..]));
      LinesRoundTrip(lines[1..]);
    }
  }

  /** A line and its newline are split off first. */
  lemma LineComesFirst(line: string, rest: string)
    requires OneLine(line)
    ensures RawLines(line + ['\n'] + rest) == [line] + RawLines(rest)
  {
    var text := line + ['\n'] + rest;
    IndexIsFirst(line, rest, '\n');
    assert text[..|line|] == line && text[|line| + 1..] == rest;
  }

  /** A last line without a newline counts unless it is empty. */
  lemma LastLineCounts(last: string)
    requires OneLine(last)
    ensures RawLines(last) == if last == [] then [] else [last]
  {
  }

  /** The scanner refuses a text exactly when one of its lines has 64 KiB or more. */
  lemma RefusedExactlyWhenTooLong(text: string, lines: seq<string>)
    requires lines == RawLines(text)
    ensures Scanned(text) == Err(LineTooLong) <==> exists i :: 0 <= i < |lines| && Utf8Size(lines[i]) >= 65536
  {
    assert Scanned(text).Ok? <==> Short(lines);
    if !Short(lines) {
      var i :| 0 <= i < |lines| && Utf8Size(lines[i]) >= 65536;
    }
  }

  // ---------------------------------------------------------------- entries

  datatype Entry = Entry(key: string, value: string)

  /** The entry on a line, if it is neither blank nor a comment and has an equals sign. */
  function EntryOn(line: string): Option<Entry> {
    var t := Trim(line);
    if t == [] || t[0] == '#' then None
    else
      var i := Index(t, '=');
      if i == |t| then None else Some(Entry(Trim(t[..i]), Trim(t[i + 1..])))
  }

  /** Which lines carry no entry, and that the first equals sign ends the key. */
  lemma EntryIsAtTheFirstEquals(line: string)
    ensures var t := Trim(line);
      && (EntryOn(line).None? <==> t == "" || t[0] == '#' || '=' !in t)
      && forall key, value ::
           t == key + "=" + value && '=' !in key && (key == "" || key[0] != '#') ==>
             EntryOn(line) == Some(Entry(Trim(key), Trim(value)))
  {
    var t := Trim(line);
    forall key, value | t == key + "=" + value && '=' !in key && (key == "" || key[0] != '#')
      ensures EntryOn(line) == Some(Entry(Trim(key), Trim(value)))
    {
      IndexIsFirst(key, value, '=');
      assert t[..|key|] == key && t[|key| + 1..] == value;
    }
  }

  function EntryLine(key: string, value: string): string {
    key + ['='] + value
  }

  /** Key and value survive being written on a line and read from it. */
  predicate Clean(key: string, value: string) {
    && Trimmed(key) && '=' !in key && '\n' !in key && (key != [] ==> key[0] != '#')
    && Trimmed(value) && '\n' !in value
    && Utf8Size(key) + 1 + Utf8Size(value) < LINE_LIMIT
  }

  /** Every entry read from a line is clean. */
  lemma EntriesAreClean(line: string)
    requires OneLine(line) && Utf8Size(line) < LINE_LIMIT && EntryOn(line).Some?
    ensures Clean(EntryOn(line).value.key, EntryOn(line).value.value)
  {
    var t := Trim(line);
    var a, b := TrimCuts(line);
    var i := Index(t, '=');
    var a1, b1 := TrimCuts(t[..i]);
    var a2, b2 := TrimCuts(t[i + 1..]);
    KeyStartsTheLine(t, i);
    PartsKeepOut(line, a, b, '\n');
    PartsKeepOut(t[..i], a1, b1, '\n');
    PartsKeepOut(t[..i], a1, b1, '=');
    PartsKeepOut(t[i + 1..], a2, b2, '\n');
    EntryFits(line, t, i);
  }

  lemma EntryFits(line: string, t: string, i: nat)
    requires t == Trim(line) && i < |t| && t[i] == '='
    ensures Utf8Size(Trim(t[..i])) + 1 + Utf8Size(Trim(t[i + 1..])) <= Utf8Size(line)
  {
    TrimShrinks(line);
    SizeSplits(t, i);
    assert t[i..][0] == '=' && t[i..][1..] == t[i + 1..];
    TrimShrinks(t[..i]);
    TrimShrinks(t[i + 1..]);
  }

  lemma PartsKeepOut(s: string, i: nat, j: nat, c: char)
    requires i <= j <= |s| && c !in s
    ensures c !in s[i..j]
  {
  }

  /** A key taken from a trimmed line starts where the line does. */
  lemma KeyStartsTheLine(t: string, i: nat)
    requires Trimmed(t) && i < |t| && t[0] != '#'
    ensures Trim(t[..i]) != [] ==> Trim(t[..i])[0] == t[0]
  {
    var j := TrimRightCuts(t[..i]);
  }

  /** A clean entry is read back from its line, also behind a carriage return. */
  lemma EntryRoundTrip(key: string, value: string)
    requires Clean(key, value)
    ensures EntryOn(EntryLine(key, value)) == Some(Entry(key, value)) && OneLine(EntryLine(key, value))
    ensures Utf8Size(EntryLine(key, value)) < LINE_LIMIT
  {
    SizeAppends(key + ['='], value);
    SizeAppends(key, ['=']);
    assert Utf8Size(['=']) == 1 + Utf8Size(['='][1..]);
    var line := EntryLine(key, value);
    assert line[0] == (if key == [] then '=' else key[0]);
    assert line[|line| - 1] == (if value == [] then '=' else value[|value| - 1]);
    TrimmedStays(line);
    IndexIsFirst(key, value, '=');
    assert line[..|key|] == key && line[|key| + 1..] == value;
    TrimmedStays(key);
    TrimmedStays(value);
  }

  lemma ReturnsDoNotMatter(line: string)
    ensures EntryOn(DropReturn(line)) == EntryOn(line) && Utf8Size(DropReturn(line)) <= Utf8Size(line)
  {
    if line != [] {
      SizeSplits(line, |line| - 1);
    }
    if line != [] && line[|line| - 1] == '\r' {
      assert line == line[..|line| - 1] + ['\r'];
      TrimIgnoresTrailingSpace(line[..|line| - 1], '\r');
    }
  }
}
