/** What the parser makes of any printed list, and exactly which lists come back. */
module ExceptionLaws {
  import opened Prelude
  import opened PyText
  import opened ExceptionParser

  /** On a continuation line these keys make the line a comment or a header. */
  ghost predicate Muted(k: string) {
    "#" <= k || k == "version" || k == "exceptions"
  }

  /** On a continuation line these keys start a new record. */
  ghost predicate Dashed(k: string) {
    "- " <= k
  }

  ghost predicate GoodKeys(fs: Fields) {
    forall i :: 0 <= i < |fs| ==> GoodKey(fs[i].0)
  }

  ghost predicate AnyDashed(fs: Fields) {
    exists i :: 0 <= i < |fs| && Dashed(fs[i].0)
  }

  /** The fields of continuation lines that the parser listens to. */
  ghost function Kept(fs: Fields): Fields {
    if fs == [] then [] else if Muted(fs[0].0) then Kept(fs[1..]) else [fs[0]] + Kept(fs[1..])
  }

  /** What remains of a record none of whose continuation lines starts a new one. */
  ghost function Heard(fs: Fields): Record
    requires fs != []
  {
    RecordFrom(map[fs[0].0 := fs[0].1], Kept(fs[1..]))
  }

  /** A record with at least one field, keys that are trimmed and free of colons, and no key twice. */
  ghost predicate ProperRecord(fs: Fields) {
    fs != [] && GoodKeys(fs) && forall i, j :: 0 <= i < j < |fs| ==> fs[i].0 != fs[j].0
  }

  /** What a printed continuation line looks like to the parser. */
  lemma LineKind(kv: (string, string))
    requires GoodKey(kv.0)
    ensures Ignored(PrintField(kv)) <==> Muted(kv.0)
    ensures "- " <= PrintField(kv) <==> Dashed(kv.0)
  {
    var l := PrintField(kv);
    assert l == kv.0 + (": \"" + kv.1 + "\"");
    if !Reserved(kv.0) {
      ContinuationIsRead(kv);
    } else if Dashed(kv.0) {
      assert l[..2] == kv.0[..2] && l[0] == '-';
      assert "version:"[0] == 'v' && "exceptions:"[0] == 'e';
    } else {
      MutedLine(kv);
    }
  }

  lemma MutedLine(kv: (string, string))
    requires Muted(kv.0)
    ensures Ignored(PrintField(kv)) && !("- " <= PrintField(kv))
  {
    var l := PrintField(kv);
    if "#" <= kv.0 {
      assert l[0] == '#';
    } else if kv.0 == "version" {
      assert l[..8] == "version:" && l[0] == 'v';
    } else {
      assert l[..11] == "exceptions:" && l[0] == 'e';
    }
  }

  lemma {:induction false} LStripKeeps(s: string, c: char)
    requires c in s && !IsSpace(c)
    ensures c in LStrip(s)
  {
    if IsSpace(s[0]) {
      LStripKeeps(s[1..], c);
    }
  }

  lemma {:induction false} RStripKeeps(s: string, c: char)
    requires c in s && !IsSpace(c)
    ensures c in RStrip(s)
  {
    if IsSpace(Last(s)) {
      assert s == Init(s) + [Last(s)];
      RStripKeeps(Init(s), c);
    }
  }

  /** A line with a colon after its dash starts a record that is not empty. */
  lemma DashedLine(p: Progress, l: string) returns (p': Progress)
    requires Trimmed(l) && !Ignored(l) && "- " <= l && ':' in l[2..]
    ensures Feed(p, l) == Ok(p') && p'.exceptions == Flushed(p) && p'.current.Some? && p'.current.value != map[]
  {
    LStripKeeps(l[2..], ':');
    RStripKeeps(LStrip(l[2..]), ':');
    var rest := Strip(l[2..]);
    assert ':' in rest;
    assert SplitKV(rest).Ok? by {
      assert rest[..|rest|] == rest;
    }
    var kv := SplitKV(rest).value;
    p' := Progress(Flushed(p), Some(map[kv.0 := kv.1]));
    assert kv.0 in p'.current.value;
  }

  /** The parser stands at the end of a record that is not empty. */
  ghost predicate InRecord(p: Progress) {
    p.current.Some? && p.current.value != map[]
  }

  /** One continuation line: a new record starts, the line is lost, or the field joins the record. */
  lemma HearsLine(p: Progress, kv: (string, string)) returns (p': Progress)
    requires InRecord(p) && GoodKey(kv.0)
    ensures Feed(p, Strip(PrintField(kv))) == Ok(p') && InRecord(p')
    ensures Dashed(kv.0) ==> |Flushed(p')| == |Flushed(p)| + 1
    ensures Muted(kv.0) ==> p' == p
    ensures !Reserved(kv.0) ==> p' == p.(current := Some(p.current.value[kv.0 := kv.1]))
  {
    var l := PrintField(kv);
    PrintedFieldIsTrimmed(kv);
    StripMeaning(l);
    LineKind(kv);
    if Dashed(kv.0) {
      assert l[|kv.0|] == ':' && l[2..][|kv.0| - 2] == ':';
      p' := DashedLine(p, l);
    } else if Muted(kv.0) {
      p' := p;
    } else {
      SplitPrintedField(kv);
      p' := p.(current := Some(p.current.value[kv.0 := kv.1]));
      assert kv.0 in p'.current.value;
    }
  }

  /** The continuation lines of one record, whatever their keys. */
  lemma {:induction false} HearsRest(p: Progress, fs: Fields, tail: seq<string>) returns (p': Progress)
    requires InRecord(p) && GoodKeys(fs)
    ensures FeedAll(p, PrintRest(fs) + tail) == FeedAll(p', tail) && InRecord(p')
    ensures |Flushed(p')| >= |Flushed(p)| + if AnyDashed(fs) then 1 else 0
    ensures !AnyDashed(fs) ==> p' == p.(current := Some(RecordFrom(p.current.value, Kept(fs))))
    decreases |fs|
  {
    if fs == [] {
      assert PrintRest(fs) + tail == tail;
      p' := p;
    } else {
      var lines := PrintRest(fs) + tail;
      assert lines[0] == PrintField(fs[0]) && lines[1..] == PrintRest(fs[1..]) + tail;
      var q := HearsLine(p, fs[0]);
      p' := HearsRest(q, fs[1..], tail);
      DashedTail(fs);
      if !Muted(fs[0].0) {
        assert ([fs[0]] + Kept(fs[1..]))[1..] == Kept(fs[1..]);
      }
    }
  }

  lemma DashedTail(fs: Fields)
    requires fs != []
    ensures AnyDashed(fs) <==> Dashed(fs[0].0) || AnyDashed(fs[1..])
  {
    if AnyDashed(fs) && !Dashed(fs[0].0) {
      var i :| 0 <= i < |fs| && Dashed(fs[i].0);
      assert fs[1..][i - 1] == fs[i];
    }
  }

  /** One printed record, whatever its keys. */
  lemma HearsRecord(p: Progress, fs: Fields, tail: seq<string>) returns (p': Progress)
    requires fs != [] && GoodKeys(fs)
    ensures FeedAll(p, PrintRecord(fs) + tail) == FeedAll(p', tail) && InRecord(p')
    ensures |Flushed(p')| >= |Flushed(p)| + 1 + if AnyDashed(fs[1..]) then 1 else 0
    ensures !AnyDashed(fs[1..]) ==> p' == Progress(Flushed(p), Some(Heard(fs)))
  {
    var lines := PrintRecord(fs) + tail;
    assert lines[0] == "- " + PrintField(fs[0]) && lines[1..] == PrintRest(fs[1..]) + tail;
    FirstLine(p, fs[0]);
    var q := Progress(Flushed(p), Some(map[fs[0].0 := fs[0].1]));
    assert fs[0].0 in q.current.value;
    p' := HearsRest(q, fs[1..], tail);
  }

  ghost predicate NoneDashed(rs: seq<Fields>) {
    forall i :: 0 <= i < |rs| && rs[i] != [] ==> !AnyDashed(rs[i][1..])
  }

  /** What comes back when no line starts a record it should not start. */
  ghost function HeardOf(rs: seq<Fields>): seq<Record>
    requires forall i :: 0 <= i < |rs| ==> rs[i] != []
  {
    seq(|rs|, i requires 0 <= i < |rs| => Heard(rs[i]))
  }

  lemma HeardSplit(done: seq<Record>, rs: seq<Fields>)
    requires rs != [] && forall i :: 0 <= i < |rs| ==> rs[i] != []
    ensures done + [Heard(rs[0])] + HeardOf(rs[1..]) == done + HeardOf(rs)
  {
    assert HeardOf(rs) == [Heard(rs[0])] + HeardOf(rs[1..]);
  }

  /** The whole printed list never fails to parse; it grows exactly when a continuation line starts a record. */
  lemma {:induction false} HearsAll(p: Progress, rs: seq<Fields>) returns (p': Progress)
    requires forall i :: 0 <= i < |rs| ==> rs[i] != [] && GoodKeys(rs[i])
    ensures FeedAll(p, PrintAll(rs)) == Ok(p')
    ensures |Flushed(p')| >= |Flushed(p)| + |rs| + if NoneDashed(rs) then 0 else 1
    ensures NoneDashed(rs) ==> Flushed(p') == Flushed(p) + HeardOf(rs)
    decreases |rs|
  {
    if rs == [] {
      p' := p;
      assert Flushed(p) + HeardOf(rs) == Flushed(p);
    } else {
      var q := HearsRecord(p, rs[0], PrintAll(rs[1..]));
      p' := HearsAll(q, rs[1..]);
      assert NoneDashed(rs) <==> !AnyDashed(rs[0][1..]) && NoneDashed(rs[1..]) by {
        assert forall i :: 0 < i < |rs| ==> rs[i] == rs[1..][i - 1];
      }
      HeardSplit(Flushed(p), rs);
    }
  }

  /******* Fields that get lost *******/

  lemma {:induction false} KeysOfRecord(r: Record, fs: Fields, k: string)
    ensures k in RecordFrom(r, fs) <==> k in r || exists i :: 0 <= i < |fs| && fs[i].0 == k
    decreases |fs|
  {
    if fs != [] {
      KeysOfRecord(r[fs[0].0 := fs[0].1], fs[1..], k);
      assert forall i :: 0 < i < |fs| ==> fs[i] == fs[1..][i - 1];
    }
  }

  lemma {:induction false} KeptMeaning(fs: Fields, k: string)
    requires Muted(k)
    ensures forall i :: 0 <= i < |Kept(fs)| ==> Kept(fs)[i].0 != k
  {
    if fs != [] {
      KeptMeaning(fs[1..], k);
    }
  }

  /** With no muted key the record is heard completely. */
  lemma {:induction false} NothingMuted(fs: Fields)
    requires forall i :: 0 <= i < |fs| ==> !Muted(fs[i].0)
    ensures Kept(fs) == fs
  {
    if fs != [] {
      NothingMuted(fs[1..]);
    }
  }

  /** A record is heard as it was written exactly when none of its continuation keys is muted. */
  lemma HeardIff(fs: Fields)
    requires ProperRecord(fs)
    ensures Heard(fs) == RecordOf(fs) <==> forall i :: 1 <= i < |fs| ==> !Muted(fs[i].0)
  {
    var first: Record, none: Record := map[fs[0].0 := fs[0].1], map[];
    assert none[fs[0].0 := fs[0].1] == first;
    if i :| 1 <= i < |fs| && Muted(fs[i].0) {
      var k := fs[i].0;
      KeptMeaning(fs[1..], k);
      KeysOfRecord(first, Kept(fs[1..]), k);
      KeysOfRecord(none, fs, k);
      assert k !in Heard(fs) && k in RecordOf(fs);
    } else {
      assert forall i :: 0 <= i < |fs[1..]| ==> fs[1..][i] == fs[i + 1];
      NothingMuted(fs[1..]);
    }
  }

  lemma TwoFields(kv: (string, string), more: (string, string))
    ensures PrintAll([[kv, more]]) == PrintRecord([kv, more])
    ensures [[kv, more]][1..] == [] && [kv, more][1..] == [more] && Kept([more]) == if Muted(more.0) then [] else [more]
  {
    assert [more][1..] == [];
  }

  /** A comment or header key on a continuation line: the field is lost. */
  lemma MutedFieldIsLost(kv: (string, string), more: (string, string))
    requires GoodKey(kv.0) && GoodKey(more.0) && Muted(more.0)
    ensures Parse(PrintRecord([kv, more])) == Ok([RecordOf([kv])])
  {
    TwoFields(kv, more);
    DashedAmongRest([kv, more]);
    var p := HearsAll(START, [[kv, more]]);
    assert [kv][1..] == [];
    assert HeardOf([[kv, more]]) == [RecordOf([kv])];
    assert Flushed(START) + [RecordOf([kv])] == [RecordOf([kv])];
  }

  /** A dash key on a continuation line: one record comes back as more than one. */
  lemma DashedFieldSplits(kv: (string, string), more: (string, string))
    requires GoodKey(kv.0) && GoodKey(more.0) && Dashed(more.0)
    ensures Parse(PrintRecord([kv, more])).Ok? && |Parse(PrintRecord([kv, more])).value| > 1
  {
    TwoFields(kv, more);
    assert [kv, more][1] == more;
    DashedAmongRest([kv, more]);
    var p := HearsAll(START, [[kv, more]]);
    assert [[kv, more]][0] == [kv, more];
  }

  /** No continuation line of the record carries a key that means something else to the parser. */
  ghost predicate Unreserved(fs: Fields) {
    forall i :: 1 <= i < |fs| ==> !Reserved(fs[i].0)
  }

  lemma DashedAmongRest(fs: Fields)
    requires fs != []
    ensures AnyDashed(fs[1..]) <==> exists i :: 1 <= i < |fs| && Dashed(fs[i].0)
  {
    assert forall i :: 0 <= i < |fs[1..]| ==> fs[1..][i] == fs[i + 1];
    if i :| 1 <= i < |fs| && Dashed(fs[i].0) {
      assert fs[1..][i - 1] == fs[i];
    }
  }

  /**
   The round trip on the printed lines: a list of proper records comes back if and only if no record carries a comment,
   header or dash key on a continuation line.
   */
  lemma RoundTripIff(rs: seq<Fields>)
    requires forall i :: 0 <= i < |rs| ==> ProperRecord(rs[i])
    ensures Parse(PrintAll(rs)) == Ok(RecordsOf(rs)) <==> forall i :: 0 <= i < |rs| ==> Unreserved(rs[i])
  {
    if forall i :: 0 <= i < |rs| ==> Unreserved(rs[i]) {
      assert forall i :: 0 <= i < |rs| ==> Printable(rs[i]);
      RoundTrip(rs, PrintAll(rs));
    }
    if Parse(PrintAll(rs)) == Ok(RecordsOf(rs)) {
      BackIsUnreserved(rs);
    }
  }

  lemma BackIsUnreserved(rs: seq<Fields>)
    requires forall i :: 0 <= i < |rs| ==> ProperRecord(rs[i])
    requires Parse(PrintAll(rs)) == Ok(RecordsOf(rs))
    ensures forall i :: 0 <= i < |rs| ==> Unreserved(rs[i])
  {
    var p := HearsAll(START, rs);
    assert Parse(PrintAll(rs)) == Ok(Flushed(p));
    assert Flushed(START) == [] && [] + HeardOf(rs) == HeardOf(rs);
    assert NoneDashed(rs);
    forall i | 0 <= i < |rs| ensures Unreserved(rs[i]) {
      assert HeardOf(rs)[i] == RecordsOf(rs)[i];
      HeardIff(rs[i]);
      DashedAmongRest(rs[i]);
    }
  }

  /******* From text to records *******/

  /** What the parser can put into a record: keys as split_kv cuts them, and nothing that spans lines. */
  ghost predicate Parsed(r: Record) {
    r != map[] && forall k :: k in r ==> GoodKey(k) && OneLine(k) && OneLine(r[k])
  }

  ghost predicate ParsedSoFar(p: Progress) {
    && (forall i :: 0 <= i < |p.exceptions| ==> Parsed(p.exceptions[i]))
    && (p.current.Some? && p.current.value != map[] ==> Parsed(p.current.value))
  }

  ghost predicate Part(a: string, s: string) {
    forall c :: c in a ==> c in s
  }

  lemma {:induction false} LStripPart(s: string)
    ensures Part(LStrip(s), s)
  {
    if s != "" && IsSpace(s[0]) {
      LStripPart(s[1..]);
    }
  }

  /** Stripping keeps nothing but characters of the string. */
  lemma StripPart(s: string)
    ensures Part(Strip(s), s)
  {
    LStripPart(s);
    RStripMeaning(LStrip(s));
  }

  lemma PartIsOneLine(a: string, s: string)
    requires Part(a, s) && OneLine(s)
    ensures OneLine(a)
  {
    forall i | 0 <= i < |a| ensures !IsBreak(a[i]) {
      assert a[i] in a;
    }
  }

  lemma UnquotePart(v: string)
    ensures Part(Unquote(v), v)
  {
  }

  /** A line gives a key without colon or outer white space, and nothing that spans lines. */
  lemma SplitIsParsed(line: string)
    requires OneLine(line) && SplitKV(line).Ok?
    ensures var kv := SplitKV(line).value; GoodKey(kv.0) && OneLine(kv.0) && OneLine(kv.1)
  {
    var i := IndexOf(line, ':');
    var a, b := line[..i], line[i + 1..];
    StripMeaning(a);
    StripPart(a);
    PartIsOneLine(Strip(a), a);
    StripPart(b);
    UnquotePart(Strip(b));
    PartIsOneLine(Unquote(Strip(b)), b);
  }

  lemma ParsedFlush(p: Progress)
    requires ParsedSoFar(p)
    ensures forall i :: 0 <= i < |Flushed(p)| ==> Parsed(Flushed(p)[i])
  {
  }

  lemma FeedIsParsed(p: Progress, line: string)
    requires ParsedSoFar(p) && OneLine(line)
    ensures Feed(p, line).Ok? ==> ParsedSoFar(Feed(p, line).value)
  {
    ParsedFlush(p);
    if Ignored(line) {
    } else if "- " <= line {
      StripPart(line[2..]);
      var rest := Strip(line[2..]);
      PartIsOneLine(rest, line[2..]);
      if rest != "" && SplitKV(rest).Ok? {
        SplitIsParsed(rest);
      }
    } else if p.current.Some? && ':' in line && SplitKV(line).Ok? {
      SplitIsParsed(line);
    }
  }

  lemma {:induction false} FeedAllIsParsed(p: Progress, lines: seq<string>)
    requires ParsedSoFar(p) && forall i :: 0 <= i < |lines| ==> OneLine(lines[i])
    ensures FeedAll(p, lines).Ok? ==> ParsedSoFar(FeedAll(p, lines).value)
    decreases |lines|
  {
    if lines != [] {
      StripPart(lines[0]);
      PartIsOneLine(Strip(lines[0]), lines[0]);
      FeedIsParsed(p, Strip(lines[0]));
      match Feed(p, Strip(lines[0]))
      case Ok(p') => FeedAllIsParsed(p', lines[1..]);
      case Err(_) =>
    }
  }

  lemma {:induction false} LinesAreLines(text: string)
    ensures forall i :: 0 <= i < |Lines(text)| ==> OneLine(Lines(text)[i])
    decreases |text|
  {
    if text != "" {
      var i := FirstBreak(text);
      FirstBreakMeaning(text);
      if i == |text| {
        assert text[..i] == text;
      } else if text[i] == '\r' && i + 1 < |text| && text[i + 1] == '\n' {
        LinesAreLines(text[i + 2..]);
      } else {
        LinesAreLines(text[i + 1..]);
      }
    }
  }

  lemma {:induction false} FirstBreakMeaning(text: string)
    ensures OneLine(text[..FirstBreak(text)])
  {
    if text != "" && !IsBreak(text[0]) {
      FirstBreakMeaning(text[1..]);
      var i := FirstBreak(text);
      assert text[..i] == [text[0]] + text[1..][..i - 1];
    }
  }

  /** Whatever the file holds, its records are not empty, and their keys and values are as lines can give them. */
  lemma FileIsParsed(text: string)
    ensures Parse(Lines(text)).Ok? ==>
              var rs := Parse(Lines(text)).value; forall i :: 0 <= i < |rs| ==> Parsed(rs[i])
  {
    LinesAreLines(text);
    FeedAllIsParsed(START, Lines(text));
    if FeedAll(START, Lines(text)).Ok? {
      ParsedFlush(FeedAll(START, Lines(text)).value);
    }
  }

  /******* The exact round trip *******/

  ghost predicate DistinctKeys(fs: Fields) {
    forall i, j :: 0 <= i < j < |fs| ==> fs[i].0 != fs[j].0
  }

  /** With distinct keys every field is in its record. */
  lemma {:induction false} FieldInRecord(r: Record, fs: Fields, i: nat)
    requires DistinctKeys(fs) && i < |fs|
    ensures fs[i].0 in RecordFrom(r, fs) && RecordFrom(r, fs)[fs[i].0] == fs[i].1
    decreases |fs|
  {
    var r' := r[fs[0].0 := fs[0].1];
    if i > 0 {
      FieldInRecord(r', fs[1..], i - 1);
    } else {
      KeptByOthers(r', fs[1..], fs[0].0);
    }
  }

  lemma {:induction false} KeptByOthers(r: Record, fs: Fields, k: string)
    requires k in r && forall i :: 0 <= i < |fs| ==> fs[i].0 != k
    ensures k in RecordFrom(r, fs) && RecordFrom(r, fs)[k] == r[k]
    decreases |fs|
  {
    if fs != [] {
      KeptByOthers(r[fs[0].0 := fs[0].1], fs[1..], k);
    }
  }

  /** A record that the parser can return was written with good keys on single lines. */
  lemma ParsedRecordIsProper(fs: Fields)
    requires DistinctKeys(fs) && Parsed(RecordOf(fs))
    ensures ProperRecord(fs) && OneLineFields(fs)
  {
    forall i | 0 <= i < |fs| ensures GoodKey(fs[i].0) && OneLine(fs[i].0) && OneLine(fs[i].1) {
      FieldInRecord(map[], fs, i);
    }
  }

  /** What comes back was proper. */
  lemma BackIsProper(rs: seq<Fields>, text: string)
    requires forall i :: 0 <= i < |rs| ==> DistinctKeys(rs[i])
    requires Parse(Lines(text)) == Ok(RecordsOf(rs))
    ensures forall i :: 0 <= i < |rs| ==> ProperRecord(rs[i]) && OneLineFields(rs[i])
  {
    FileIsParsed(text);
    var back := Parse(Lines(text)).value;
    forall i | 0 <= i < |rs| ensures ProperRecord(rs[i]) && OneLineFields(rs[i]) {
      assert back[i] == RecordOf(rs[i]);
      ParsedRecordIsProper(rs[i]);
    }
  }

  lemma ProperIsPrintable(fs: Fields)
    requires ProperRecord(fs) && Unreserved(fs)
    ensures Printable(fs)
  {
  }

  /**
   The round trip through the file, exactly.  Records with distinct keys come back from the text they are printed to if
   and only if each has a field, its keys are trimmed and without colon, none but the first is a comment, header or dash
   key, and no key or value contains a line break.
   */
  lemma TextRoundTripIff(rs: seq<Fields>)
    requires forall i :: 0 <= i < |rs| ==> DistinctKeys(rs[i])
    ensures Parse(Lines(Unlines(PrintAll(rs)))) == Ok(RecordsOf(rs)) <==>
            forall i :: 0 <= i < |rs| ==> Printable(rs[i]) && OneLineFields(rs[i])
  {
    var text := Unlines(PrintAll(rs));
    if Parse(Lines(text)) == Ok(RecordsOf(rs)) {
      BackIsProper(rs, text);
      PrintedIsLines(rs);
      LinesOfUnlines(PrintAll(rs));
      RoundTripIff(rs);
      forall i | 0 <= i < |rs| ensures Printable(rs[i]) {
        ProperIsPrintable(rs[i]);
      }
    }
    if forall i :: 0 <= i < |rs| ==> Printable(rs[i]) && OneLineFields(rs[i]) {
      TextRoundTrip(rs);
    }
  }

  /** A value with a line break does not come back. */
  lemma BrokenValueIsLost(k: string, a: string, b: string)
    ensures var rs := [[(k, a + "\n" + b)]]; Parse(Lines(Unlines(PrintAll(rs)))) != Ok(RecordsOf(rs))
  {
    var rs := [[(k, a + "\n" + b)]];
    TextRoundTripIff(rs);
    assert rs[0][0].1[|a|] == '\n';
    assert !OneLine(rs[0][0].1);
    assert !OneLineFields(rs[0]);
  }

  /******* Files that cannot be parsed, and line endings *******/

  /** The line starts a record, and what follows the dash has no colon. */
  ghost predicate Unsplittable(line: string) {
    && "- " <= line && Strip(line[2..]) != "" && ':' !in Strip(line[2..])
  }

  lemma FeedFailsIff(p: Progress, line: string)
    ensures Feed(p, line).Err? <==> Unsplittable(line)
  {
    SplitFailsIff(line);
    if "- " <= line {
      SplitFailsIff(Strip(line[2..]));
      assert line[0] == '-' && "version:"[0] == 'v' && "exceptions:"[0] == 'e';
    }
  }

  lemma {:induction false} FeedAllFailsIff(p: Progress, lines: seq<string>)
    ensures FeedAll(p, lines).Err? <==> exists i :: 0 <= i < |lines| && Unsplittable(Strip(lines[i]))
    decreases |lines|
  {
    if lines != [] {
      FeedFailsIff(p, Strip(lines[0]));
      assert forall i :: 0 < i < |lines| ==> lines[i] == lines[1..][i - 1];
      match Feed(p, Strip(lines[0]))
      case Ok(p') => FeedAllFailsIff(p', lines[1..]);
      case Err(_) =>
    }
  }

  /** The parser raises exactly when some line that starts a record has text without a colon. */
  lemma ParseFailsIff(lines: seq<string>)
    ensures Parse(lines).Err? <==> exists i :: 0 <= i < |lines| && Unsplittable(Strip(lines[i]))
  {
    FeedAllFailsIff(START, lines);
  }

  lemma {:induction false} BreakAt(a: string, c: char, b: string)
    requires OneLine(a) && IsBreak(c)
    ensures FirstBreak(a + [c] + b) == |a|
  {
    if a != "" {
      assert (a + [c] + b)[1..] == a[1..] + [c] + b;
      BreakAt(a[1..], c, b);
    }
  }

  /** A line ends at a line feed, at a carriage return, or at the two together, which count once. */
  lemma LineEndings(a: string, b: string)
    requires OneLine(a)
    ensures Lines(a + "\n" + b) == [a] + Lines(b)
    ensures Lines(a + "\r" + "\n" + b) == [a] + Lines(b)
    ensures b == "" || b[0] != '\n' ==> Lines(a + "\r" + b) == [a] + Lines(b)
  {
    BreakAt(a, '\n', b);
    BreakAt(a, '\r', "\n" + b);
    BreakAt(a, '\r', b);
    var x, y, z := a + "\n" + b, a + "\r" + "\n" + b, a + "\r" + b;
    assert y == a + ['\r'] + ("\n" + b);
    assert x[..|a|] == a && x[|a| + 1..] == b && x[|a|] == '\n';
    assert y[..|a|] == a && y[|a| + 2..] == b && y[|a|] == '\r' && y[|a| + 1] == '\n';
    assert z[..|a|] == a && z[|a| + 1..] == b && z[|a|] == '\r';
    if b != "" {
      assert z[|a| + 1] == b[0];
    }
  }
}
