/**
 Exception files as people write them: every value bare, in single or in double quotes.  Whatever the mix, the records
 come back.
 */
module ExceptionStyles {
  import opened Prelude
  import opened PyText
  import opened ExceptionParser

  datatype Style = Bare | Single | Double

  datatype Written = Written(key: string, value: string, style: Style)

  function WriteValue(w: Written): string {
    match w.style
    case Bare => w.value
    case Single => "'" + w.value + "'"
    case Double => "\"" + w.value + "\""
  }

  function WriteField(w: Written): string {
    w.key + ": " + WriteValue(w)
  }

  function WriteRest(ws: seq<Written>): seq<string> {
    if ws == [] then [] else [WriteField(ws[0])] + WriteRest(ws[1..])
  }

  function WriteRecord(ws: seq<Written>): seq<string> {
    if ws == [] then [] else ["- " + WriteField(ws[0])] + WriteRest(ws[1..])
  }

  function WriteAll(rs: seq<seq<Written>>): seq<string> {
    if rs == [] then [] else WriteRecord(rs[0]) + WriteAll(rs[1..])
  }

  function FieldsOf(ws: seq<Written>): Fields {
    seq(|ws|, i requires 0 <= i < |ws| => (ws[i].key, ws[i].value))
  }

  function AllFields(rs: seq<seq<Written>>): seq<Fields> {
    seq(|rs|, i requires 0 <= i < |rs| => FieldsOf(rs[i]))
  }

  /** A bare value has no outer white space and does not look quoted; a quoted one may hold anything. */
  ghost predicate Writable(w: Written) {
    GoodKey(w.key) && (w.style.Bare? ==> Trimmed(w.value) && !LooksQuoted(w.value))
  }

  ghost predicate WritableRecord(ws: seq<Written>) {
    && ws != []
    && (forall i :: 0 <= i < |ws| ==> Writable(ws[i]))
    && (forall i :: 1 <= i < |ws| ==> !Reserved(ws[i].key))
  }

  /******* One line *******/

  /** What a line that starts with a good key and a colon looks like to the parser. */
  lemma KeyedLine(k: string, rest: string)
    requires GoodKey(k) && !Reserved(k)
    ensures !Ignored(k + ":" + rest) && !("- " <= k + ":" + rest)
  {
    var l := k + ":" + rest;
    assert l[|k|] == ':' && forall i :: 0 <= i < |k| ==> l[i] == k[i];
    if "version:" <= l { SameStart("version", k, rest); }
    if "exceptions:" <= l { SameStart("exceptions", k, rest); }
    assert "- " <= l ==> "- " <= k;
  }

  lemma SameStart(name: string, k: string, rest: string)
    requires ':' !in k && ':' !in name && name + ":" <= k + ":" + rest
    ensures k == name
  {
    var l := k + ":" + rest;
    assert l == name + [':'] + l[|name| + 1..];
    IndexOfAt(name, ':', l[|name| + 1..]);
    assert l == k + [':'] + rest;
    IndexOfAt(k, ':', rest);
    assert l[..|name|] == name && l[..|k|] == k;
  }

  lemma StripSpaceAfter(s: string)
    requires s != "" && Trimmed(s)
    ensures Strip(s + " ") == s
  {
    var t := s + " ";
    assert t[0] == s[0] && LStrip(t) == t;
    assert Init(t) == s && Last(t) == ' ';
    assert RStrip(t) == RStrip(s) == s;
  }

  lemma SpaceBefore(s: string)
    requires Trimmed(s)
    ensures Strip(" " + s) == s
  {
    var t := " " + s;
    assert t[1..] == s && t[0] == ' ';
    StripMeaning(s);
    assert LStrip(t) == LStrip(s);
  }

  lemma ValueIsTrimmed(w: Written)
    requires Writable(w)
    ensures Trimmed(WriteValue(w)) && Unquote(WriteValue(w)) == w.value
  {
    UnquoteMeaning(w.value);
    var v := WriteValue(w);
    if !w.style.Bare? {
      assert v[0] == v[|v| - 1];
    }
  }

  /** The stripped line of a field, without the blank that an empty bare value leaves behind. */
  ghost function StrippedField(w: Written): string {
    if WriteValue(w) == "" then w.key + ":" else WriteField(w)
  }

  lemma FieldIsStripped(w: Written)
    requires Writable(w)
    ensures Strip(WriteField(w)) == StrippedField(w) && Trimmed(StrippedField(w)) && StrippedField(w) != ""
  {
    ValueIsTrimmed(w);
    var l, v := StrippedField(w), WriteValue(w);
    if w.key != "" {
      assert l[0] == w.key[0];
    }
    if v == "" {
      assert Last(l) == ':';
      assert WriteField(w) == l + " ";
      StripSpaceAfter(l);
    } else {
      assert Last(l) == Last(v);
      StripMeaning(l);
    }
  }

  lemma SplitSpaced(k: string, v: string)
    requires GoodKey(k) && Trimmed(v)
    ensures SplitKV(k + ": " + v) == Ok((k, Unquote(v)))
  {
    StripMeaning(k);
    SpaceBefore(v);
    SplitAt(k, " " + v);
    ColonSpace(k, v);
  }

  lemma ColonSpace(k: string, v: string)
    ensures k + ": " + v == k + ":" + (" " + v)
  {
    assert ": " == ":" + " ";
  }

  lemma SplitBlank(k: string)
    requires GoodKey(k)
    ensures SplitKV(k + ":") == Ok((k, ""))
  {
    StripMeaning(k);
    SplitAt(k, "");
    assert k + ":" == k + ":" + "";
  }

  lemma StrippedSplits(w: Written)
    requires Writable(w)
    ensures SplitKV(StrippedField(w)) == Ok((w.key, w.value))
  {
    ValueIsTrimmed(w);
    SplitSpaced(w.key, WriteValue(w));
    SplitBlank(w.key);
  }

  /** The stripped line is the key, a colon, and something. */
  lemma StrippedShape(w: Written) returns (rest: string)
    ensures StrippedField(w) == w.key + ":" + rest
  {
    rest := if WriteValue(w) == "" then "" else " " + WriteValue(w);
  }

  /** A continuation line adds its field to the record. */
  lemma WrittenLine(p: Progress, w: Written)
    requires p.current.Some? && Writable(w) && !Reserved(w.key)
    ensures Feed(p, Strip(WriteField(w))) == Ok(p.(current := Some(p.current.value[w.key := w.value])))
  {
    FieldIsStripped(w);
    StrippedSplits(w);
    var rest := StrippedShape(w);
    KeyedLine(w.key, rest);
    SplitFailsIff(StrippedField(w));
  }

  lemma FirstIsStripped(w: Written)
    requires Writable(w)
    ensures Strip("- " + WriteField(w)) == "- " + StrippedField(w)
  {
    FieldIsStripped(w);
    var s := StrippedField(w);
    var l := "- " + s;
    assert l[0] == '-' && Last(l) == Last(s);
    if WriteValue(w) == "" {
      assert "- " + WriteField(w) == l + " ";
      StripSpaceAfter(l);
    } else {
      StripMeaning(l);
    }
  }

  /** The first line starts a record with its field. */
  lemma WrittenFirstLine(p: Progress, w: Written)
    requires Writable(w)
    ensures Feed(p, Strip("- " + WriteField(w))) == Ok(Progress(Flushed(p), Some(map[w.key := w.value])))
  {
    FirstIsStripped(w);
    FieldIsStripped(w);
    StrippedSplits(w);
    FeedFirst(p, StrippedField(w));
  }

  lemma FeedFirst(p: Progress, s: string)
    requires Trimmed(s) && s != "" && SplitKV(s).Ok?
    ensures var kv := SplitKV(s).value;
            Feed(p, "- " + s) == Ok(Progress(Flushed(p), Some(map[kv.0 := kv.1])))
  {
    var l := "- " + s;
    StripMeaning(s);
    assert l[2..] == s && l[0] == '-' && "- " <= l;
  }

  /******* Whole files *******/

  lemma FeedCons(p: Progress, l: string, rest: seq<string>, p': Progress)
    requires Feed(p, Strip(l)) == Ok(p')
    ensures FeedAll(p, [l] + rest) == FeedAll(p', rest)
  {
    assert ([l] + rest)[0] == l && ([l] + rest)[1..] == rest;
  }

  lemma {:induction false} WrittenRest(p: Progress, ws: seq<Written>, tail: seq<string>)
    requires p.current.Some? && forall i :: 0 <= i < |ws| ==> Writable(ws[i]) && !Reserved(ws[i].key)
    ensures FeedAll(p, WriteRest(ws) + tail) ==
            FeedAll(p.(current := Some(RecordFrom(p.current.value, FieldsOf(ws)))), tail)
    decreases |ws|
  {
    if ws == [] {
      assert WriteRest(ws) + tail == tail;
    } else {
      var w, rest := ws[0], ws[1..];
      var p' := p.(current := Some(p.current.value[w.key := w.value]));
      WrittenLine(p, w);
      FeedCons(p, WriteField(w), WriteRest(rest) + tail, p');
      assert WriteRest(ws) + tail == [WriteField(w)] + (WriteRest(rest) + tail);
      WrittenRest(p', rest, tail);
      FieldsCons(p.current.value, ws);
    }
  }

  lemma FieldsCons(r: Record, ws: seq<Written>)
    requires ws != []
    ensures RecordFrom(r, FieldsOf(ws)) == RecordFrom(r[ws[0].key := ws[0].value], FieldsOf(ws[1..]))
  {
    assert FieldsOf(ws)[1..] == FieldsOf(ws[1..]);
  }

  lemma WrittenRecord(p: Progress, ws: seq<Written>, tail: seq<string>)
    requires WritableRecord(ws)
    ensures FeedAll(p, WriteRecord(ws) + tail) == FeedAll(Progress(Flushed(p), Some(RecordOf(FieldsOf(ws)))), tail)
    ensures RecordOf(FieldsOf(ws)) != map[]
  {
    var w, rest := ws[0], ws[1..];
    var first: Record, none: Record := map[w.key := w.value], map[];
    var p' := Progress(Flushed(p), Some(first));
    WrittenFirstLine(p, w);
    FeedCons(p, "- " + WriteField(w), WriteRest(rest) + tail, p');
    assert WriteRecord(ws) + tail == ["- " + WriteField(w)] + (WriteRest(rest) + tail);
    WrittenRest(p', rest, tail);
    FieldsCons(none, ws);
    assert w.key in first && none[w.key := w.value] == first;
    RecordNotEmpty(first, FieldsOf(rest));
  }

  lemma {:induction false} WrittenAll(p: Progress, rs: seq<seq<Written>>)
    requires forall i :: 0 <= i < |rs| ==> WritableRecord(rs[i])
    ensures EndsWith(FeedAll(p, WriteAll(rs)), Flushed(p) + RecordsOf(AllFields(rs)))
    decreases |rs|
  {
    var all := AllFields(rs);
    if rs == [] {
      assert Flushed(p) + RecordsOf(all) == Flushed(p);
    } else {
      WrittenRecord(p, rs[0], WriteAll(rs[1..]));
      var p' := Progress(Flushed(p), Some(RecordOf(FieldsOf(rs[0]))));
      WrittenAll(p', rs[1..]);
      assert all[1..] == AllFields(rs[1..]);
      RecordsSplit(Flushed(p), all);
    }
  }

  ghost predicate OneLineWritten(ws: seq<Written>) {
    forall i :: 0 <= i < |ws| ==> OneLine(ws[i].key) && OneLine(ws[i].value)
  }

  lemma {:induction false} WrittenRestIsLines(ws: seq<Written>)
    requires OneLineWritten(ws)
    ensures forall i :: 0 <= i < |WriteRest(ws)| ==> OneLine(WriteRest(ws)[i])
  {
    if ws != [] {
      WrittenRestIsLines(ws[1..]);
      assert OneLine(WriteField(ws[0]));
    }
  }

  lemma {:induction false} WrittenIsLines(rs: seq<seq<Written>>)
    requires forall i :: 0 <= i < |rs| ==> OneLineWritten(rs[i])
    ensures forall i :: 0 <= i < |WriteAll(rs)| ==> OneLine(WriteAll(rs)[i])
  {
    if rs != [] {
      WrittenIsLines(rs[1..]);
      if rs[0] != [] {
        WrittenRestIsLines(rs[0][1..]);
        assert OneLine("- " + WriteField(rs[0][0]));
      }
    }
  }

  /** A file of records written in any mix of styles reads back as the records. */
  lemma StyledRoundTrip(rs: seq<seq<Written>>)
    requires forall i :: 0 <= i < |rs| ==> WritableRecord(rs[i]) && OneLineWritten(rs[i])
    ensures Parse(Lines(Unlines(WriteAll(rs)))) == Ok(RecordsOf(AllFields(rs)))
  {
    WrittenIsLines(rs);
    LinesOfUnlines(WriteAll(rs));
    WrittenAll(START, rs);
    ParseEnds(WriteAll(rs), RecordsOf(AllFields(rs)));
  }

  lemma ParseEnds(lines: seq<string>, records: seq<Record>)
    requires EndsWith(FeedAll(START, lines), Flushed(START) + records)
    ensures Parse(lines) == Ok(records)
  {
    assert Flushed(START) + records == records;
  }

  /** Two bare fields and a quoted one between them, as in the repository's own list. */
  lemma BareEntry(package: string, advisory: string, severity: string)
    requires Trimmed(package) && !LooksQuoted(package) && Trimmed(severity) && !LooksQuoted(severity)
    requires OneLine(package) && OneLine(advisory) && OneLine(severity)
    ensures var lines := ["- package: " + package, "advisory: \"" + advisory + "\"", "severity: " + severity];
            Parse(Lines(Unlines(lines))) ==
            Ok([RecordOf([("package", package), ("advisory", advisory), ("severity", severity)])])
  {
    var a, c := Written("package", package, Bare), Written("severity", severity, Bare);
    var b := Written("advisory", advisory, Double);
    assert "- " + "package" + ": " == "- package: " && "severity" + ": " == "severity: ";
    KeysAreFree();
    OneStyled(a, b, c);
    Glue("- ", "package", ": ", package);
    Glue("", "severity", ": ", severity);
    QuotedAdvisory(advisory);
  }

  lemma Glue(a: string, b: string, c: string, d: string)
    ensures a + (b + c + d) == a + b + c + d
  {
  }

  lemma QuotedAdvisory(v: string)
    ensures "advisory" + ": " + ("\"" + v + "\"") == "advisory: \"" + v + "\""
  {
    Glue("advisory: ", "\"", v, "\"");
    assert "advisory" + ": " == "advisory: " && "advisory: " + "\"" == "advisory: \"";
  }

  lemma OneStyled(a: Written, b: Written, c: Written)
    requires Writable(a) && Writable(b) && Writable(c) && !Reserved(b.key) && !Reserved(c.key)
    requires OneLine(a.key) && OneLine(b.key) && OneLine(c.key)
    requires OneLine(a.value) && OneLine(b.value) && OneLine(c.value)
    ensures Parse(Lines(Unlines(["- " + WriteField(a), WriteField(b), WriteField(c)]))) ==
            Ok([RecordOf([(a.key, a.value), (b.key, b.value), (c.key, c.value)])])
  {
    var ws := [a, b, c];
    var one: seq<seq<Written>> := [ws];
    ThreeLines(a, b, c);
    assert WritableRecord(ws) && OneLineWritten(ws);
    StyledRoundTrip(one);
    OneRecord(ws);
    ThreeFields(a, b, c);
  }

  lemma OneRecord(ws: seq<Written>)
    ensures RecordsOf(AllFields([ws])) == [RecordOf(FieldsOf(ws))]
  {
  }

  lemma ThreeFields(a: Written, b: Written, c: Written)
    ensures FieldsOf([a, b, c]) == [(a.key, a.value), (b.key, b.value), (c.key, c.value)]
  {
  }

  lemma ThreeLines(a: Written, b: Written, c: Written)
    ensures WriteAll([[a, b, c]]) == ["- " + WriteField(a), WriteField(b), WriteField(c)]
  {
    var ws, one: seq<seq<Written>> := [a, b, c], [[a, b, c]];
    assert one[1..] == [] && ws[1..] == [b, c] && [b, c][1..] == [c] && [c][1..] == [];
    assert WriteRest([c]) == [WriteField(c)] + WriteRest([]);
    assert WriteRest([b, c]) == [WriteField(b)] + WriteRest([c]);
    assert WriteAll(one) == WriteRecord(ws) + WriteAll([]);
  }

  lemma KeysAreFree()
    ensures GoodKey("package") && GoodKey("advisory") && GoodKey("severity")
    ensures !Reserved("advisory") && !Reserved("severity")
    ensures OneLine("package") && OneLine("advisory") && OneLine("severity")
  {
    assert "advisory"[0] == 'a' && "severity"[0] == 's' && "version"[0] == 'v' && "exceptions"[0] == 'e';
  }
}
