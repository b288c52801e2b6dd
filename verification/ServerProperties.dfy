/** Loading and saving server.properties (internal/minecraft/properties.go:15-118). */
module ServerProperties {
  import opened Wrappers
  import opened PropertyLines
  import opened Text

  type Properties = map<string, string>

  // ---------------------------------------------------------------- loading

  function With(before: Properties, entry: Option<Entry>): Properties {
    match entry
    case None => before
    case Some(e) => before[e.key := e.value]
  }

  /** The entries of the lines, later ones overriding earlier ones. */
  function Entries(lines: seq<string>): Properties {
    if lines == [] then map[] else With(Entries(lines[..|lines| - 1]), EntryOn(lines[|lines| - 1]))
  }

  lemma EntriesNext(lines: seq<string>, n: nat)
    requires n < |lines|
    ensures Entries(lines[..n + 1]) == With(Entries(lines[..n]), EntryOn(lines[n]))
  {
    assert lines[..n + 1][..n] == lines[..n];
  }

  function Loaded(text: string): Result<Properties, Failure> {
    match Scanned(text)
    case Err(e) => Err(e)
    case Ok(lines) => Ok(Entries(lines))
  }

  /** LoadServerProperties; a missing file has no text. */
  method LoadServerProperties(text: Option<string>) returns (r: Result<Properties, Failure>)
    ensures r == if text.None? then Err(CannotOpen) else Loaded(text.value)
  {
    if text.None? { return Err(CannotOpen); }
    var scanned := Scanned(text.value);
    if scanned.Err? { return Err(scanned.error); }
    var lines, properties := scanned.value, map[];
    for n := 0 to |lines|
      invariant properties == Entries(lines[..n])
    {
      EntriesNext(lines, n);
      var line := Trim(lines[n]);
      if line == [] || line[0] == '#' { continue; }
      var i := Index(line, '=');
      if i < |line| {
        properties := properties[Trim(line[..i]) := Trim(line[i + 1..])];
      }
    }
    assert lines[..|lines|] == lines;
    return Ok(properties);
  }

  // ---------------------------------------------------------------- saving

  /** A line as it is written back: a saved key gets its value, everything else stays as it is. */
  function Rewritten(line: string, properties: Properties): string {
    match EntryOn(line)
    case Some(e) => if e.key in properties then EntryLine(e.key, properties[e.key]) else line
    case None => line
  }

  function RewrittenAll(lines: seq<string>, properties: Properties): seq<string> {
    seq(|lines|, i requires 0 <= i < |lines| => Rewritten(lines[i], properties))
  }

  /** The saved keys that some line already carries. */
  function Updated(lines: seq<string>, properties: Properties): set<string> {
    Entries(lines).Keys * properties.Keys
  }

  function Appended(order: seq<string>, properties: Properties): seq<string>
    requires forall key :: key in order ==> key in properties
  {
    seq(|order|, i requires 0 <= i < |order| => EntryLine(order[i], properties[order[i]]))
  }

  /** The keys that no line carried, each once, in some order. */
  ghost predicate NewKeys(order: seq<string>, lines: seq<string>, properties: Properties) {
    && (forall key :: key in order <==> key in properties && key !in Updated(lines, properties))
    && (forall i, j :: 0 <= i < j < |order| ==> order[i] != order[j])
  }

  /** The lines written, as one sequence. */
  function SavedLines(lines: seq<string>, properties: Properties, order: seq<string>): seq<string>
    requires forall key :: key in order ==> key in properties
  {
    RewrittenAll(lines, properties) + Appended(order, properties)
  }

  /** The key of a line, if it is to be saved. */
  function SavedKey(line: string, properties: Properties): set<string> {
    match EntryOn(line)
    case Some(e) => if e.key in properties then {e.key} else {}
    case None => {}
  }

  lemma UpdatedNext(lines: seq<string>, n: nat, properties: Properties)
    requires n < |lines|
    ensures Updated(lines[..n + 1], properties) == Updated(lines[..n], properties) + SavedKey(lines[n], properties)
  {
    EntriesNext(lines, n);
  }

  /** One original line: how it is written back, and the saved key it carries. */
  method RewriteLine(original: string, properties: Properties) returns (line: string, key: Option<string>)
    ensures line == Rewritten(original, properties)
    ensures SavedKey(original, properties) == if key.Some? then {key.value} else {}
  {
    var trimmed := Trim(original);
    if trimmed == [] || trimmed[0] == '#' { return original, None; }
    var i := Index(trimmed, '=');
    if i < |trimmed| {
      var k := Trim(trimmed[..i]);
      if k in properties { return EntryLine(k, properties[k]), Some(k); }
    }
    return original, None;
  }

  /** The loop over the original lines. */
  method RewriteLines(lines: seq<string>, properties: Properties) returns (written: seq<string>, updated: set<string>)
    ensures written == RewrittenAll(lines, properties) && updated == Updated(lines, properties)
  {
    written, updated := [], {};
    for n := 0 to |lines|
      invariant written == RewrittenAll(lines[..n], properties)
      invariant updated == Updated(lines[..n], properties)
    {
      UpdatedNext(lines, n, properties);
      RewrittenAppends(lines[..n], lines[n], properties);
      assert lines[..n + 1] == lines[..n] + [lines[n]];
      var line, key := RewriteLine(lines[n], properties);
      written := written + [line];
      if key.Some? { updated := updated + {key.value}; }
    }
    assert lines[..|lines|] == lines;
  }

  /** The loop over the properties no line carried. */
  method NewLines(properties: Properties, updated: set<string>) returns (written: seq<string>, order: seq<string>)
    ensures forall key :: key in order <==> key in properties && key !in updated
    ensures forall i, j :: 0 <= i < j < |order| ==> order[i] != order[j]
    ensures written == Appended(order, properties)
  {
    written, order := [], [];
    var rest := properties.Keys;
    while rest != {}
      invariant rest <= properties.Keys
      invariant forall key :: key in order <==> key in properties && key !in rest && key !in updated
      invariant forall i, j :: 0 <= i < j < |order| ==> order[i] != order[j]
      invariant written == Appended(order, properties)
      decreases |rest|
    {
      var key :| key in rest;
      rest := rest - {key};
      if key !in updated {
        written := written + [EntryLine(key, properties[key])];
        order := order + [key];
      }
    }
  }

  /** SaveServerProperties: the new text, and the order in which the new keys came. A file the scanner
      refuses is left alone. */
  method SaveServerProperties(text: Option<string>, properties: Properties)
    returns (r: Result<string, Failure>, order: seq<string>)
    ensures text.Some? && Scanned(text.value).Err? ==> r == Err(LineTooLong)
    ensures !(text.Some? && Scanned(text.value).Err?) ==>
      var lines := if text.None? then [] else Scanned(text.value).value;
      NewKeys(order, lines, properties) && r == Ok(Unlines(SavedLines(lines, properties, order)))
  {
    order := [];
    var lines: seq<string> := [];
    if text.Some? {
      var scanned := Scanned(text.value);
      if scanned.Err? { return Err(scanned.error), order; }
      lines := scanned.value;
    }
    var written, updated := RewriteLines(lines, properties);
    var added;
    added, order := NewLines(properties, updated);
    return Ok(Unlines(written + added)), order;
  }

  // ---------------------------------------------------------------- round trip

  lemma {:induction false} EntriesAppend(a: seq<string>, b: seq<string>)
    ensures Entries(a + b) == Entries(a) + Entries(b)
    decreases |b|
  {
    if b == [] {
      assert a + b == a;
    } else {
      assert (a + b)[..|a + b| - 1] == a + b[..|b| - 1];
      EntriesAppend(a, b[..|b| - 1]);
    }
  }

  ghost predicate AllClean(properties: Properties) {
    forall key :: key in properties ==> Clean(key, properties[key])
  }

  lemma EntriesAppendOne(lines: seq<string>, line: string)
    ensures Entries(lines + [line]) == With(Entries(lines), EntryOn(line))
  {
    assert (lines + [line])[..|lines|] == lines;
  }

  /** The entries with the saved values put in. */
  function Overlaid(before: Properties, properties: Properties): Properties {
    map key | key in before :: if key in properties then properties[key] else before[key]
  }

  /** The entry on a rewritten line has the same key and the saved value, if there is one. */
  lemma RewrittenEntry(line: string, properties: Properties)
    requires AllClean(properties)
    ensures match EntryOn(line)
      case None => EntryOn(Rewritten(line, properties)) == None
      case Some(e) =>
        var value := if e.key in properties then properties[e.key] else e.value;
        EntryOn(Rewritten(line, properties)) == Some(Entry(e.key, value))
  {
    var e := EntryOn(line);
    if e.Some? && e.value.key in properties {
      EntryRoundTrip(e.value.key, properties[e.value.key]);
    }
  }

  lemma OverlaidOneMore(before: Properties, properties: Properties, key: string, value: string)
    ensures Overlaid(before, properties)[key := if key in properties then properties[key] else value]
         == Overlaid(before[key := value], properties)
  {
  }

  lemma RewrittenAppends(lines: seq<string>, line: string, properties: Properties)
    ensures RewrittenAll(lines + [line], properties) == RewrittenAll(lines, properties) + [Rewritten(line, properties)]
  {
  }

  /** Rewriting gives the saved keys their new values and keeps the rest, repeated keys included. */
  lemma {:induction false} RewrittenEntries(lines: seq<string>, properties: Properties)
    requires AllClean(properties)
    ensures Entries(RewrittenAll(lines, properties)) == Overlaid(Entries(lines), properties)
    decreases |lines|
  {
    if lines != [] {
      var front, last := lines[..|lines| - 1], lines[|lines| - 1];
      assert lines == front + [last];
      RewrittenEntries(front, properties);
      RewrittenAppends(front, last, properties);
      EntriesAppendOne(RewrittenAll(front, properties), Rewritten(last, properties));
      RewrittenEntry(last, properties);
      if EntryOn(last).Some? {
        OverlaidOneMore(Entries(front), properties, EntryOn(last).value.key, EntryOn(last).value.value);
      }
      EntriesAppendOne(front, last);
    }
  }

  function Chosen(order: seq<string>, properties: Properties): Properties
    requires forall key :: key in order ==> key in properties
  {
    map key | key in order :: properties[key]
  }

  lemma ChosenAppends(order: seq<string>, last: string, properties: Properties)
    requires forall key :: key in order + [last] ==> key in properties
    ensures forall key :: key in order ==> key in properties
    ensures last in properties
    ensures Chosen(order + [last], properties) == Chosen(order, properties)[last := properties[last]]
    ensures Appended(order + [last], properties) == Appended(order, properties) + [EntryLine(last, properties[last])]
  {
    assert forall key :: key in order ==> key in order + [last];
    assert last in order + [last];
  }

  lemma {:induction false} AppendedEntries(order: seq<string>, properties: Properties)
    requires AllClean(properties) && forall key :: key in order ==> key in properties
    ensures Entries(Appended(order, properties)) == Chosen(order, properties)
    decreases |order|
  {
    if order != [] {
      var front, last := order[..|order| - 1], order[|order| - 1];
      assert order == front + [last];
      ChosenAppends(front, last, properties);
      AppendedEntries(front, properties);
      EntryRoundTrip(last, properties[last]);
      EntriesAppendOne(Appended(front, properties), EntryLine(last, properties[last]));
    }
  }

  lemma SavedEntries(lines: seq<string>, properties: Properties, order: seq<string>)
    requires AllClean(properties) && NewKeys(order, lines, properties)
    ensures Entries(SavedLines(lines, properties, order)) == Entries(lines) + properties
  {
    RewrittenEntries(lines, properties);
    AppendedEntries(order, properties);
    EntriesAppend(RewrittenAll(lines, properties), Appended(order, properties));
    Overridden(Entries(lines), order, properties);
  }

  lemma Overridden(before: Properties, order: seq<string>, properties: Properties)
    requires forall key :: key in order <==> key in properties && key !in before
    ensures Overlaid(before, properties) + Chosen(order, properties) == before + properties
  {
  }

  // ---------------------------------------------------------------- whole files

  lemma SavedLinesFit(lines: seq<string>, properties: Properties, order: seq<string>)
    requires AllClean(properties) && NewKeys(order, lines, properties) && OneLineEach(lines) && Short(lines)
    ensures OneLineEach(SavedLines(lines, properties, order)) && Short(SavedLines(lines, properties, order))
  {
    var saved := SavedLines(lines, properties, order);
    forall i | 0 <= i < |saved|
      ensures OneLine(saved[i]) && Utf8Size(saved[i]) < LINE_LIMIT
    {
      if i < |lines| {
        var e := EntryOn(lines[i]);
        if e.Some? && e.value.key in properties { EntryRoundTrip(e.value.key, properties[e.value.key]); }
      } else {
        var key := order[i - |lines|];
        assert key in properties;
        EntryRoundTrip(key, properties[key]);
      }
    }
  }

  lemma {:induction false} EntriesIgnoreReturns(lines: seq<string>)
    ensures Entries(DropReturns(lines)) == Entries(lines)
    decreases |lines|
  {
    if lines != [] {
      var front, last := lines[..|lines| - 1], lines[|lines| - 1];
      EntriesIgnoreReturns(front);
      ReturnsDoNotMatter(last);
      assert DropReturns(lines)[..|lines| - 1] == DropReturns(front);
    }
  }

  lemma {:induction false} LoadedEntriesAreClean(lines: seq<string>)
    requires OneLineEach(lines) && Short(lines)
    ensures AllClean(Entries(lines))
    decreases |lines|
  {
    if lines != [] {
      LoadedEntriesAreClean(lines[..|lines| - 1]);
      var last := lines[|lines| - 1];
      if EntryOn(last).Some? { EntriesAreClean(last); }
    }
  }

  lemma ScannedLines(text: string)
    requires Scanned(text).Ok?
    ensures OneLineEach(Scanned(text).value) && Short(Scanned(text).value)
  {
    RawLinesAreLines(text);
    var raw := RawLines(text);
    forall i | 0 <= i < |raw|
      ensures OneLine(DropReturn(raw[i])) && Utf8Size(DropReturn(raw[i])) < LINE_LIMIT
    {
      assert OneLine(raw[i]);
      ReturnsDoNotMatter(raw[i]);
    }
  }

  /** Loading what was saved gives the original entries overridden by the saved ones exactly when every
      saved entry is clean: key and value trimmed and on one line, no equals sign in the key, no "#"
      at its start, and the line short enough in bytes. The order of the new keys does not matter. */
  lemma SaveThenLoad(text: string, properties: Properties, order: seq<string>)
    requires Scanned(text).Ok? && NewKeys(order, Scanned(text).value, properties)
    ensures Loaded(Unlines(SavedLines(Scanned(text).value, properties, order)))
      == Ok(Entries(Scanned(text).value) + properties)
      <==> AllClean(properties)
  {
    var lines := Scanned(text).value;
    var out := Unlines(SavedLines(lines, properties, order));
    ScannedLines(text);
    if AllClean(properties) {
      SavedLinesFit(lines, properties, order);
      LinesRoundTrip(SavedLines(lines, properties, order));
      EntriesIgnoreReturns(SavedLines(lines, properties, order));
      SavedEntries(lines, properties, order);
    }
    if Loaded(out) == Ok(Entries(lines) + properties) {
      ScannedLines(out);
      LoadedEntriesAreClean(Scanned(out).value);
      forall key | key in properties
        ensures Clean(key, properties[key])
      {
        assert key in Entries(Scanned(out).value);
      }
    }
  }

  /** Lines without a saved key keep their text, every line keeps its place, and each new key is
      appended once. */
  lemma OtherLinesKeepTheirPlace(lines: seq<string>, properties: Properties, order: seq<string>)
    requires NewKeys(order, lines, properties)
    ensures var saved := SavedLines(lines, properties, order);
      && |saved| == |lines| + |properties.Keys - Updated(lines, properties)|
      && forall i :: 0 <= i < |lines| ==>
           saved[i] == lines[i]
           || (EntryOn(lines[i]).Some? && EntryOn(lines[i]).value.key in properties)
  {
    DistinctCount(order, properties.Keys - Updated(lines, properties));
  }

  /** The line of a saved key, wherever it stood: key, equals sign and value. */
  lemma SavedKeysAreRewritten(lines: seq<string>, properties: Properties, order: seq<string>, i: nat)
    requires NewKeys(order, lines, properties) && i < |SavedLines(lines, properties, order)|
    ensures i < |lines| && EntryOn(lines[i]).Some? && EntryOn(lines[i]).value.key in properties ==>
      var key := EntryOn(lines[i]).value.key;
      SavedLines(lines, properties, order)[i] == key + "=" + properties[key]
    ensures i >= |lines| ==>
      i - |lines| < |order| && order[i - |lines|] in properties
      && SavedLines(lines, properties, order)[i] == order[i - |lines|] + "=" + properties[order[i - |lines|]]
  {
  }

  lemma {:induction false} DistinctCount(order: seq<string>, keys: set<string>)
    requires forall key :: key in order <==> key in keys
    requires forall i, j :: 0 <= i < j < |order| ==> order[i] != order[j]
    ensures |order| == |keys|
  {
    if order == [] {
      assert keys == {};
    } else {
      assert order[0] in order && order == [order[0]] + order[1..];
      DistinctCount(order[1..], keys - {order[0]});
    }
  }
}
