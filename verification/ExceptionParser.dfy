/** The line parser of the exception list and the printer it inverts. */
module ExceptionParser {
  import opened Prelude
  import opened PyText

  type Record = map<string, string>

  /** The parser raises ValueError when an entry line has no colon. */
  datatype ParseError = NoColon(line: string)

  /******* split_kv *******/

  function Unquote(v: string): string {
    if v != "" && ((v[0] == '"' && Last(v) == '"') || (v[0] == '\'' && Last(v) == '\'')) then
      if |v| == 1 then "" else v[1..|v| - 1]
    else v
  }

  function SplitKV(line: string): Result<(string, string), ParseError> {
    var i := IndexOf(line, ':');
    if i == |line| then Err(NoColon(line)) else Ok((Strip(line[..i]), Unquote(Strip(line[i + 1..]))))
  }

  /******* parse_exceptions *******/

  /** The local variables of the loop. */
  datatype Progress = Progress(exceptions: seq<Record>, current: Option<Record>)

  const START := Progress([], None)

  /** Lines the parser passes over, after stripping. */
  predicate Ignored(line: string) {
    line == "" || line[0] == '#' || "version:" <= line || "exceptions:" <= line
  }

  /** The finished records, with the pending one unless it is absent or empty. */
  function Flushed(p: Progress): seq<Record> {
    if p.current.Some? && p.current.value != map[] then p.exceptions + [p.current.value] else p.exceptions
  }

  /** One pass of the loop on a stripped line. */
  function Feed(p: Progress, line: string): Result<Progress, ParseError> {
    if Ignored(line) then Ok(p)
    else if "- " <= line then
      var rest := Strip(line[2..]);
      if rest == "" then Ok(Progress(Flushed(p), Some(map[])))
      else
        match SplitKV(rest)
        case Ok(kv) => Ok(Progress(Flushed(p), Some(map[kv.0 := kv.1])))
        case Err(e) => Err(e)
    else if p.current.Some? && ':' in line then
      match SplitKV(line)
      case Ok(kv) => Ok(p.(current := Some(p.current.value[kv.0 := kv.1])))
      case Err(e) => Err(e)
    else Ok(p)
  }

  function FeedAll(p: Progress, lines: seq<string>): Result<Progress, ParseError>
    decreases |lines|
  {
    if lines == [] then Ok(p)
    else
      match Feed(p, Strip(lines[0]))
      case Ok(p') => FeedAll(p', lines[1..])
      case Err(e) => Err(e)
  }

  function Parse(lines: seq<string>): Result<seq<Record>, ParseError> {
    match FeedAll(START, lines)
    case Ok(p) => Ok(Flushed(p))
    case Err(e) => Err(e)
  }

  method ParseExceptions(lines: seq<string>) returns (r: Result<seq<Record>, ParseError>)
    ensures r == Parse(lines)
  {
    var exceptions: seq<Record>, current: Option<Record> := [], None;
    for i := 0 to |lines|
      invariant FeedAll(START, lines) == FeedAll(Progress(exceptions, current), lines[i..])
    {
      assert lines[i..][0] == lines[i] && lines[i..][1..] == lines[i + 1..];
      var line := Strip(lines[i]);
      if line == "" || line[0] == '#' {
        continue;
      }
      if "version:" <= line || "exceptions:" <= line {
        continue;
      }
      if "- " <= line {
        if current.Some? && current.value != map[] {
          exceptions := exceptions + [current.value];
        }
        current := Some(map[]);
        line := Strip(line[2..]);
        if line != "" {
          var kv := SplitKV(line);
          if kv.Err? {
            return Err(kv.error);
          }
          current := Some(current.value[kv.value.0 := kv.value.1]);
        }
        continue;
      }
      if current.Some? && ':' in line {
        var kv := SplitKV(line);
        if kv.Err? {
          return Err(kv.error);
        }
        current := Some(current.value[kv.value.0 := kv.value.1]);
      }
    }
    if current.Some? && current.value != map[] {
      exceptions := exceptions + [current.value];
    }
    return Ok(exceptions);
  }

  /******* Noise *******/

  /** The stripped lines that are not passed over. */
  function Signal(lines: seq<string>): seq<string> {
    if lines == [] then []
    else if Ignored(Strip(lines[0])) then Signal(lines[1..])
    else [Strip(lines[0])] + Signal(lines[1..])
  }

  /** Blank, comment and header lines anywhere, and white space around any line, change nothing. */
  lemma {:induction false} NoiseChangesNothing(p: Progress, lines: seq<string>)
    ensures FeedAll(p, lines) == FeedAll(p, Signal(lines))
    decreases |lines|
  {
    if lines != [] {
      var line := Strip(lines[0]);
      if Ignored(line) {
        NoiseChangesNothing(p, lines[1..]);
      } else {
        StripMeaning(lines[0]);
        StripMeaning(line);
        assert Signal(lines)[0] == line && Signal(lines)[1..] == Signal(lines[1..]);
        match Feed(p, line)
        case Ok(p') => NoiseChangesNothing(p', lines[1..]);
        case Err(_) =>
      }
    }
  }

  /******* The printer *******/

  /** A record to print: its fields in order. */
  type Fields = seq<(string, string)>

  function PrintField(kv: (string, string)): string {
    kv.0 + ": \"" + kv.1 + "\""
  }

  function PrintRest(fs: Fields): seq<string> {
    if fs == [] then [] else [PrintField(fs[0])] + PrintRest(fs[1..])
  }

  function PrintRecord(fs: Fields): seq<string> {
    if fs == [] then [] else ["- " + PrintField(fs[0])] + PrintRest(fs[1..])
  }

  function PrintAll(rs: seq<Fields>): seq<string> {
    if rs == [] then [] else PrintRecord(rs[0]) + PrintAll(rs[1..])
  }

  function RecordFrom(r: Record, fs: Fields): Record
    decreases |fs|
  {
    if fs == [] then r else RecordFrom(r[fs[0].0 := fs[0].1], fs[1..])
  }

  function RecordOf(fs: Fields): Record { RecordFrom(map[], fs) }

  function RecordsOf(rs: seq<Fields>): seq<Record> {
    seq(|rs|, i requires 0 <= i < |rs| => RecordOf(rs[i]))
  }

  ghost predicate GoodKey(k: string) {
    Trimmed(k) && ':' !in k
  }

  /** Keys that a continuation line cannot carry, because the line would mean something else. */
  ghost predicate Reserved(k: string) {
    "#" <= k || k == "version" || k == "exceptions" || "- " <= k
  }

  ghost predicate Printable(fs: Fields) {
    && fs != []
    && (forall i :: 0 <= i < |fs| ==> GoodKey(fs[i].0))
    && (forall i :: 1 <= i < |fs| ==> !Reserved(fs[i].0))
  }

  lemma PrintedFieldIsTrimmed(kv: (string, string))
    requires GoodKey(kv.0)
    ensures Trimmed(PrintField(kv)) && PrintField(kv) != "" && ':' in PrintField(kv)
  {
    var l := PrintField(kv);
    assert l[|kv.0|] == ':';
    assert Last(l) == '"';
    if kv.0 != "" {
      assert l[0] == kv.0[0];
    }
  }

  /** A printed field splits into its key and its value, whatever the value holds. */
  lemma SplitPrintedField(kv: (string, string))
    requires GoodKey(kv.0)
    ensures SplitKV(PrintField(kv)) == Ok(kv)
  {
    var l, after := PrintField(kv), " \"" + kv.1 + "\"";
    var quoted := "\"" + kv.1 + "\"";
    assert l == kv.0 + [':'] + after;
    IndexOfAt(kv.0, ':', after);
    assert l[..|kv.0|] == kv.0 && l[|kv.0| + 1..] == after;
    StripMeaning(kv.0);
    assert after[1..] == quoted && after[0] == ' ';
    assert LStrip(after) == LStrip(quoted) == quoted;
    assert Last(quoted) == '"';
    assert Strip(after) == quoted;
    assert quoted[1..|quoted| - 1] == kv.1;
  }

  /** Splitting fails exactly on a line without a colon. */
  lemma SplitFailsIff(line: string)
    ensures SplitKV(line).Err? <==> ':' !in line
  {
    assert line[..|line|] == line;
  }

  /** It cuts at the first colon, strips both parts and unquotes the second. */
  lemma SplitAt(k: string, rest: string)
    requires ':' !in k
    ensures SplitKV(k + ":" + rest) == Ok((Strip(k), Unquote(Strip(rest))))
  {
    var line := k + ":" + rest;
    assert line == k + [':'] + rest;
    IndexOfAt(k, ':', rest);
    assert line[..|k|] == k && line[|k| + 1..] == rest;
  }

  /** The value both starts and ends with the same kind of quote. */
  ghost predicate LooksQuoted(v: string) {
    v != "" && ((v[0] == '"' && Last(v) == '"') || (v[0] == '\'' && Last(v) == '\''))
  }

  /** A bare value stays as it is; one pair of quotes of either kind is taken off, whatever is inside. */
  lemma UnquoteMeaning(v: string)
    ensures !LooksQuoted(v) ==> Unquote(v) == v
    ensures Unquote("\"" + v + "\"") == v && Unquote("'" + v + "'") == v
    ensures Unquote("\"") == "" && Unquote("'") == ""
  {
    var a, b := "\"" + v + "\"", "'" + v + "'";
    assert a[1..|a| - 1] == v && b[1..|b| - 1] == v;
    assert Last(a) == '"' && Last(b) == '\'';
  }

  lemma PrefixOfField(p: string, kv: (string, string))
    requires p <= PrintField(kv) && |p| <= |kv.0| + 1
    ensures p <= kv.0 || p == kv.0 + ":"
  {
    var l := PrintField(kv);
    assert l[..|kv.0| + 1] == kv.0 + ":";
    assert p == l[..|p|];
    if |p| <= |kv.0| {
      assert l[..|p|] == kv.0[..|p|];
    }
  }

  lemma ContinuationIsRead(kv: (string, string))
    requires GoodKey(kv.0) && !Reserved(kv.0)
    ensures !Ignored(PrintField(kv)) && !("- " <= PrintField(kv))
  {
    var l := PrintField(kv);
    PrintedFieldIsTrimmed(kv);
    assert l[|kv.0|] == ':' && l[|kv.0| + 1] == ' ';
    if l[0] == '#' {
      PrefixOfField("#", kv);
    }
    if "version:" <= l { HeaderKey("version", kv); }
    if "exceptions:" <= l { HeaderKey("exceptions", kv); }
    assert forall j :: 0 <= j < |kv.0| ==> l[j] == kv.0[j];
    assert "- " <= l ==> "- " <= kv.0;
  }

  /** A line that starts like a header has the header's name as its key. */
  lemma HeaderKey(name: string, kv: (string, string))
    requires GoodKey(kv.0) && ':' !in name && name + ":" <= PrintField(kv)
    ensures kv.0 == name
  {
    var l := PrintField(kv);
    assert l == name + [':'] + l[|name| + 1..];
    IndexOfAt(name, ':', l[|name| + 1..]);
    assert l == kv.0 + [':'] + l[|kv.0| + 1..];
    IndexOfAt(kv.0, ':', l[|kv.0| + 1..]);
    assert l[..|name|] == name && l[..|kv.0|] == kv.0;
  }

  lemma {:induction false} ParsesRest(p: Progress, fs: Fields, tail: seq<string>)
    requires p.current.Some?
    requires forall i :: 0 <= i < |fs| ==> GoodKey(fs[i].0) && !Reserved(fs[i].0)
    ensures FeedAll(p, PrintRest(fs) + tail) ==
            FeedAll(p.(current := Some(RecordFrom(p.current.value, fs))), tail)
    decreases |fs|
  {
    if fs == [] {
      assert PrintRest(fs) + tail == tail;
    } else {
      var lines := PrintRest(fs) + tail;
      assert lines[0] == PrintField(fs[0]) && lines[1..] == PrintRest(fs[1..]) + tail;
      PrintedFieldIsTrimmed(fs[0]);
      StripMeaning(lines[0]);
      ContinuationIsRead(fs[0]);
      SplitPrintedField(fs[0]);
      ParsesRest(p.(current := Some(p.current.value[fs[0].0 := fs[0].1])), fs[1..], tail);
    }
  }

  lemma {:induction false} RecordNotEmpty(r: Record, fs: Fields)
    requires r != map[]
    ensures RecordFrom(r, fs) != map[]
    decreases |fs|
  {
    if fs != [] {
      assert fs[0].0 in r[fs[0].0 := fs[0].1];
      RecordNotEmpty(r[fs[0].0 := fs[0].1], fs[1..]);
    }
  }

  /** The line that starts a record. */
  lemma FirstLine(p: Progress, kv: (string, string))
    requires GoodKey(kv.0)
    ensures Feed(p, Strip("- " + PrintField(kv))) == Ok(Progress(Flushed(p), Some(map[kv.0 := kv.1])))
  {
    var l := "- " + PrintField(kv);
    PrintedFieldIsTrimmed(kv);
    assert Last(l) == Last(PrintField(kv)) && l[0] == '-';
    StripMeaning(l);
    assert l[2..] == PrintField(kv) && "- " <= l;
    StripMeaning(PrintField(kv));
    SplitPrintedField(kv);
  }

  lemma ParsesRecord(p: Progress, fs: Fields, tail: seq<string>)
    requires Printable(fs)
    ensures FeedAll(p, PrintRecord(fs) + tail) == FeedAll(Progress(Flushed(p), Some(RecordOf(fs))), tail)
    ensures RecordOf(fs) != map[]
  {
    var lines := PrintRecord(fs) + tail;
    assert lines[0] == "- " + PrintField(fs[0]) && lines[1..] == PrintRest(fs[1..]) + tail;
    FirstLine(p, fs[0]);
    var first: Record, none: Record := map[fs[0].0 := fs[0].1], map[];
    assert fs[0].0 in first && none[fs[0].0 := fs[0].1] == first;
    ParsesRest(Progress(Flushed(p), Some(first)), fs[1..], tail);
    RecordNotEmpty(first, fs[1..]);
  }

  lemma RecordsSplit(done: seq<Record>, rs: seq<Fields>)
    requires rs != []
    ensures done + [RecordOf(rs[0])] + RecordsOf(rs[1..]) == done + RecordsOf(rs)
  {
    assert RecordsOf(rs) == [RecordOf(rs[0])] + RecordsOf(rs[1..]);
  }

  ghost predicate EndsWith(p: Result<Progress, ParseError>, records: seq<Record>) {
    p.Ok? && Flushed(p.value) == records
  }

  lemma {:induction false} ParsesAll(p: Progress, rs: seq<Fields>)
    requires forall i :: 0 <= i < |rs| ==> Printable(rs[i])
    ensures EndsWith(FeedAll(p, PrintAll(rs)), Flushed(p) + RecordsOf(rs))
    decreases |rs|
  {
    if rs == [] {
      assert Flushed(p) + RecordsOf(rs) == Flushed(p);
    } else {
      ParsesRecord(p, rs[0], PrintAll(rs[1..]));
      var p' := Progress(Flushed(p), Some(RecordOf(rs[0])));
      ParsesAll(p', rs[1..]);
      RecordsSplit(Flushed(p), rs);
    }
  }

  /**
   Round trip.  Any lines that amount to the printed records, with blank, comment and header lines and any indentation
   in between, parse to exactly the records.
   */
  lemma RoundTrip(rs: seq<Fields>, lines: seq<string>)
    requires forall i :: 0 <= i < |rs| ==> Printable(rs[i])
    requires Signal(lines) == Signal(PrintAll(rs))
    ensures Parse(lines) == Ok(RecordsOf(rs))
  {
    NoiseChangesNothing(START, lines);
    NoiseChangesNothing(START, PrintAll(rs));
    assert FeedAll(START, lines) == FeedAll(START, PrintAll(rs));
    ParsesAll(START, rs);
    assert Flushed(START) + RecordsOf(rs) == RecordsOf(rs);
  }

  /******* From text to lines *******/

  predicate IsBreak(c: char) { c == '\n' || c == '\r' }

  ghost predicate OneLine(s: string) {
    forall i :: 0 <= i < |s| ==> s[i] != '\n' && s[i] != '\r'
  }

  function FirstBreak(text: string): (i: nat)
    ensures i <= |text|
  {
    if text == "" || IsBreak(text[0]) then 0 else 1 + FirstBreak(text[1..])
  }

  /** Iterating over a file opened in text mode: universal newlines, each line without its ending. */
  function Lines(text: string): seq<string>
    decreases |text|
  {
    if text == "" then []
    else
      var i := FirstBreak(text);
      if i == |text| then [text]
      else if text[i] == '\r' && i + 1 < |text| && text[i + 1] == '\n' then [text[..i]] + Lines(text[i + 2..])
      else [text[..i]] + Lines(text[i + 1..])
  }

  function Unlines(lines: seq<string>): string {
    if lines == [] then "" else lines[0] + "\n" + Unlines(lines[1..])
  }

  lemma {:induction false} FirstBreakAt(a: string, b: string)
    requires OneLine(a)
    ensures FirstBreak(a + "\n" + b) == |a|
  {
    if a != "" {
      assert (a + "\n" + b)[1..] == a[1..] + "\n" + b;
      FirstBreakAt(a[1..], b);
    }
  }

  lemma {:induction false} LinesOfUnlines(lines: seq<string>)
    requires forall i :: 0 <= i < |lines| ==> OneLine(lines[i])
    ensures Lines(Unlines(lines)) == lines
  {
    if lines != [] {
      var l, rest := lines[0], Unlines(lines[1..]);
      var text := l + "\n" + rest;
      FirstBreakAt(l, rest);
      assert text[|l|] == '\n' && text[..|l|] == l && text[|l| + 1..] == rest;
      LinesOfUnlines(lines[1..]);
    }
  }

  ghost predicate OneLineFields(fs: Fields) {
    forall i :: 0 <= i < |fs| ==> OneLine(fs[i].0) && OneLine(fs[i].1)
  }

  lemma {:induction false} RestIsLines(fs: Fields)
    requires OneLineFields(fs)
    ensures forall i :: 0 <= i < |PrintRest(fs)| ==> OneLine(PrintRest(fs)[i])
  {
    if fs != [] {
      RestIsLines(fs[1..]);
      assert OneLine(PrintField(fs[0]));
    }
  }

  lemma {:induction false} PrintedIsLines(rs: seq<Fields>)
    requires forall i :: 0 <= i < |rs| ==> OneLineFields(rs[i])
    ensures forall i :: 0 <= i < |PrintAll(rs)| ==> OneLine(PrintAll(rs)[i])
  {
    if rs != [] {
      PrintedIsLines(rs[1..]);
      if rs[0] != [] {
        RestIsLines(rs[0][1..]);
        assert OneLine("- " + PrintField(rs[0][0]));
      }
    }
  }

  /** The file written from newline-free records reads back as the records. */
  lemma TextRoundTrip(rs: seq<Fields>)
    requires forall i :: 0 <= i < |rs| ==> Printable(rs[i]) && OneLineFields(rs[i])
    ensures Parse(Lines(Unlines(PrintAll(rs)))) == Ok(RecordsOf(rs))
  {
    PrintedIsLines(rs);
    LinesOfUnlines(PrintAll(rs));
    RoundTrip(rs, PrintAll(rs));
  }
}
