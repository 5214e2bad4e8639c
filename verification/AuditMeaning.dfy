/**
 The verdict and the report of the gate in terms of the record fields, the findings and the calendar alone: nothing here
 goes through the tables and keys that the gate builds for itself.
 */
module AuditMeaning {
  import opened Prelude
  import opened PyText
  import opened ExceptionParser
  import opened AuditGate
  import opened AuditLaws

  /******* Findings and exceptions in plain words *******/

  /** str(value or "") for a JSON scalar. */
  ghost function Text(env: Env, v: Scalar): string {
    match v
    case Null => ""
    case Str(s) => s
    case Num(n) => env.str(n)
  }

  ghost function PlainSeverity(env: Env, f: Finding): string {
    match f.severity
    case None => env.lower(Strip(""))
    case Some(s) => env.lower(Strip(s))
  }

  /** A named finding of high or critical severity. */
  ghost predicate High(env: Env, f: Finding) {
    && (PlainSeverity(env, f) == "high" || PlainSeverity(env, f) == "critical")
    && f.name != Null && f.name != Str("") && f.name != Num(0)
  }

  ghost predicate SameFinding(env: Env, f: Finding, g: Finding) {
    && Strip(Text(env, f.name)) == Strip(Text(env, g.name))
    && env.lower(Strip(Text(env, f.advisory))) == env.lower(Strip(Text(env, g.advisory)))
  }

  ghost predicate HasAdvisory(env: Env, f: Finding) {
    env.lower(Strip(Text(env, f.advisory))) != ""
  }

  ghost const FIELDS: set<string> := {"package", "advisory", "severity", "mitigation", "expires_on"}

  /** All five fields are there, the date is one, and package and advisory are not blank. */
  ghost predicate RecordOk(env: Env, r: Record) {
    && (forall k :: k in FIELDS ==> k in r && r[k] != "")
    && env.parseDate(r["expires_on"]).Some?
    && Strip(r["package"]) != "" && env.lower(Strip(r["advisory"])) != ""
  }

  ghost predicate SameException(env: Env, r: Record, s: Record)
    requires RecordOk(env, r) && RecordOk(env, s)
  {
    && Strip(r["package"]) == Strip(s["package"])
    && env.lower(Strip(r["advisory"])) == env.lower(Strip(s["advisory"]))
  }

  /** The exception is about the finding. */
  ghost predicate Concerns(env: Env, r: Record, f: Finding)
    requires RecordOk(env, r)
  {
    && Strip(r["package"]) == Strip(Text(env, f.name))
    && env.lower(Strip(r["advisory"])) == env.lower(Strip(Text(env, f.advisory)))
  }

  ghost predicate Expired(env: Env, r: Record)
    requires RecordOk(env, r)
  {
    env.parseDate(r["expires_on"]).value < env.today
  }

  /** The exception is about another severity than the finding's. */
  ghost predicate Mismatched(env: Env, r: Record, f: Finding)
    requires RecordOk(env, r)
  {
    var severity := env.lower(Strip(r["severity"]));
    severity != "" && severity != PlainSeverity(env, f)
  }

  ghost predicate AllOk(env: Env, es: seq<Record>) {
    forall r :: r in es ==> RecordOk(env, r)
  }

  /** The finding is the first high one with its package and advisory. */
  ghost predicate FirstHigh(env: Env, fs: seq<Finding>, i: int) {
    && 0 <= i < |fs| && High(env, fs[i]) && HasAdvisory(env, fs[i])
    && forall j :: 0 <= j < i && High(env, fs[j]) && HasAdvisory(env, fs[j]) ==> !SameFinding(env, fs[j], fs[i])
  }

  ghost predicate Excused(env: Env, es: seq<Record>, f: Finding)
    requires AllOk(env, es)
  {
    exists r :: r in es && Concerns(env, r, f) && !Expired(env, r) && !Mismatched(env, r, f)
  }

  /** When the tool exits with 0. */
  ghost predicate ExitsZero(env: Env, es: seq<Record>, fs: seq<Finding>) {
    && AllOk(env, es)
    && (forall i, j :: 0 <= i < j < |es| ==> es[i] in es && es[j] in es && !SameException(env, es[i], es[j]))
    && (forall f :: f in fs && High(env, f) ==> HasAdvisory(env, f))
    && (forall i :: FirstHigh(env, fs, i) ==> Excused(env, es, fs[i]))
  }

  /******* They are what the gate computes with *******/

  lemma FindingWords(env: Env, f: Finding)
    ensures Severity(env, f) == PlainSeverity(env, f)
    ensures Relevant(env, f) <==> High(env, f)
    ensures FindingKey(env, f) == (Strip(Text(env, f.name)), env.lower(Strip(Text(env, f.advisory))))
    ensures Checkable(env, f) <==> High(env, f) && HasAdvisory(env, f)
  {
  }

  lemma FieldNames()
    ensures REQUIRED_FIELDS == FIELDS
  {
  }

  lemma RecordWords(env: Env, r: Record)
    ensures Fault(env, r).None? <==> RecordOk(env, r)
    ensures RecordOk(env, r) ==> ExceptionKey(env, r) == (Strip(r["package"]), env.lower(Strip(r["advisory"])))
  {
    FieldNames();
    assert "package" in FIELDS && "advisory" in FIELDS && "expires_on" in FIELDS;
    if Fault(env, r).None? {
      forall k | k in FIELDS ensures k in r && r[k] != "" {
        assert Get(r, k) != "";
      }
    }
    if RecordOk(env, r) {
      forall k | k in REQUIRED_FIELDS ensures Get(r, k) != "" {
      }
    }
  }

  lemma CoversWords(env: Env, r: Record, f: Finding)
    requires RecordOk(env, r)
    ensures Covers(env, r, f) <==> Concerns(env, r, f) && !Expired(env, r) && !Mismatched(env, r, f)
  {
    RecordWords(env, r);
    FindingWords(env, f);
    assert "severity" in FIELDS && "expires_on" in FIELDS;
  }

  lemma SoundWords(env: Env, es: seq<Record>)
    ensures SoundExceptions(env, es) <==>
            && AllOk(env, es)
            && forall i, j :: 0 <= i < j < |es| ==> es[i] in es && es[j] in es && !SameException(env, es[i], es[j])
  {
    forall i | 0 <= i < |es| ensures Fault(env, es[i]).None? <==> RecordOk(env, es[i]) {
      RecordWords(env, es[i]);
    }
    assert forall i :: 0 <= i < |es| ==> es[i] in es;
    if AllOk(env, es) {
      forall i, j | 0 <= i < j < |es|
        ensures ExceptionKey(env, es[i]) != ExceptionKey(env, es[j]) <==> !SameException(env, es[i], es[j])
      {
        RecordWords(env, es[i]);
        RecordWords(env, es[j]);
      }
    }
  }

  lemma FirstWords(env: Env, fs: seq<Finding>, i: int)
    ensures IsFirst(env, fs, i) <==> FirstHigh(env, fs, i)
  {
    if 0 <= i < |fs| {
      FindingWords(env, fs[i]);
      forall j | 0 <= j < i
        ensures Checkable(env, fs[j]) <==> High(env, fs[j]) && HasAdvisory(env, fs[j])
        ensures FindingKey(env, fs[j]) == FindingKey(env, fs[i]) <==> SameFinding(env, fs[j], fs[i])
      {
        FindingWords(env, fs[j]);
      }
    }
  }

  lemma CoveredWords(env: Env, es: seq<Record>, f: Finding)
    requires AllOk(env, es)
    ensures Covered(env, es, f) <==> Excused(env, es, f)
  {
    forall r | r in es
      ensures Covers(env, r, f) <==> Concerns(env, r, f) && !Expired(env, r) && !Mismatched(env, r, f)
    {
      CoversWords(env, r, f);
    }
  }

  lemma HighHaveAdvisories(env: Env, fs: seq<Finding>)
    ensures (forall i :: 0 <= i < |fs| && Relevant(env, fs[i]) ==> Checkable(env, fs[i])) <==>
            (forall f :: f in fs && High(env, f) ==> HasAdvisory(env, f))
  {
    forall f
      ensures (Relevant(env, f) <==> High(env, f)) && (Checkable(env, f) <==> High(env, f) && HasAdvisory(env, f))
    {
      FindingWords(env, f);
    }
    assert forall i :: 0 <= i < |fs| ==> fs[i] in fs;
  }

  /**
   Exit code 0, in plain words: every exception is complete, dated and about a package and advisory of its own; every
   named high or critical finding has an advisory; and each first such finding has an exception that has not expired and
   does not name another severity.
   */
  lemma ExitsZeroIff(env: Env, es: seq<Record>, fs: seq<Finding>)
    ensures Outcome(env, es, fs) == NOTHING <==> ExitsZero(env, es, fs)
  {
    GateMeaning(env, es, fs);
    SoundWords(env, es);
    HighHaveAdvisories(env, fs);
    forall i ensures IsFirst(env, fs, i) <==> FirstHigh(env, fs, i) {
      FirstWords(env, fs, i);
    }
    if AllOk(env, es) {
      forall i | FirstHigh(env, fs, i) ensures Covered(env, es, fs[i]) <==> Excused(env, es, fs[i]) {
        CoveredWords(env, es, fs[i]);
      }
    }
  }

  ghost predicate AllDifferent(env: Env, es: seq<Record>)
    requires AllOk(env, es)
  {
    forall i, j :: 0 <= i < j < |es| ==> es[i] in es && es[j] in es && !SameException(env, es[i], es[j])
  }

  lemma OneException(env: Env, es: seq<Record>, r: Record, s: Record)
    requires AllOk(env, es) && AllDifferent(env, es) && r in es && s in es && SameException(env, r, s)
    ensures r == s
  {
    var x :| 0 <= x < |es| && es[x] == r;
    var y :| 0 <= y < |es| && es[y] == s;
  }

  /** An expired exception never lets a high finding pass, whatever else is in the file. */
  lemma ExpiredFails(env: Env, es: seq<Record>, fs: seq<Finding>, r: Record, f: Finding)
    requires r in es && f in fs && High(env, f) && RecordOk(env, r) && Concerns(env, r, f) && Expired(env, r)
    ensures Outcome(env, es, fs) != NOTHING
  {
    ExitsZeroIff(env, es, fs);
    if AllOk(env, es) && AllDifferent(env, es) && HasAdvisory(env, f) {
      var i :| 0 <= i < |fs| && fs[i] == f;
      FindingWords(env, f);
      var m := HasFirst(env, fs, i);
      FirstWords(env, fs, m);
      FindingWords(env, fs[m]);
      forall s | s in es && Concerns(env, s, fs[m]) ensures Expired(env, s) {
        OneException(env, es, r, s);
      }
      assert !Excused(env, es, fs[m]);
    }
  }

  /******* What the report lists *******/

  /** The finding is among those the scan looks up: the first of its kind, and not seen before. */
  ghost predicate LookedUp(env: Env, seen: set<Key>, fs: seq<Finding>, f: Finding) {
    exists i :: IsNew(env, seen, fs, i) && fs[i] == f
  }

  lemma LookedUpCons(env: Env, seen: set<Key>, fs: seq<Finding>, f: Finding)
    requires fs != []
    ensures LookedUp(env, seen, fs, f) <==>
            (IsNew(env, seen, fs, 0) && fs[0] == f) || LookedUp(env, SeenAfter(env, seen, fs[0]), fs[1..], f)
  {
    var rest, seen' := fs[1..], SeenAfter(env, seen, fs[0]);
    if i :| IsNew(env, seen, fs, i) && fs[i] == f {
      if i > 0 {
        ShiftNew(env, seen, fs, i - 1);
        assert IsNew(env, seen', rest, i - 1) && rest[i - 1] == f;
      }
    }
    if i :| IsNew(env, seen', rest, i) && rest[i] == f {
      ShiftNew(env, seen, fs, i);
      assert IsNew(env, seen, fs, i + 1) && fs[i + 1] == f;
    }
  }

  lemma JudgeLists(env: Env, index: map<Key, Entry>, seen: set<Key>, fs: seq<Finding>, f: Finding)
    requires fs != []
    ensures var j, k := Judge(env, index, seen, fs[0]), FindingKey(env, f);
            var mine := IsNew(env, seen, fs, 0) && fs[0] == f;
            && (f in j.missing <==> mine && k !in index)
            && (f in j.expired <==> mine && k in index && index[k].expiresOn < env.today)
            && (NoAdvisoryId(f) in j.errors <==> fs[0] == f && Relevant(env, f) && !Checkable(env, f))
            && (forall got :: SeverityMismatch(f, got) in j.errors <==>
                  mine && k in index && index[k].severity == got != "" && got != Severity(env, f))
  {
  }

  /** What the scan puts into its three lists. */
  lemma {:induction false} ScanLists(env: Env, index: map<Key, Entry>, seen: set<Key>, fs: seq<Finding>, f: Finding)
    ensures var s, k := Scan(env, index, seen, fs), FindingKey(env, f);
            var up := LookedUp(env, seen, fs, f);
            && (f in s.missing <==> up && k !in index)
            && (f in s.expired <==> up && k in index && index[k].expiresOn < env.today)
            && (NoAdvisoryId(f) in s.errors <==> f in fs && Relevant(env, f) && !Checkable(env, f))
            && (forall got :: SeverityMismatch(f, got) in s.errors <==>
                  up && k in index && index[k].severity == got != "" && got != Severity(env, f))
    decreases |fs|
  {
    if fs != [] {
      ScanLists(env, index, SeenAfter(env, seen, fs[0]), fs[1..], f);
      LookedUpCons(env, seen, fs, f);
      JudgeLists(env, index, seen, fs, f);
      assert f in fs <==> fs[0] == f || f in fs[1..];
    }
  }

  /** The record the index holds for a finding. */
  ghost predicate OnFile(env: Env, es: seq<Record>, f: Finding, r: Record)
    requires AllOk(env, es)
  {
    r in es && Concerns(env, r, f)
  }

  lemma IndexedRecord(env: Env, es: seq<Record>, f: Finding)
    requires SoundExceptions(env, es) && AllOk(env, es)
    ensures FindingKey(env, f) in Index(env, es) <==> exists r :: OnFile(env, es, f, r)
    ensures forall r :: OnFile(env, es, f, r) ==>
              FindingKey(env, f) in Index(env, es) && Index(env, es)[FindingKey(env, f)] == EntryOf(env, r)
  {
    IndexMeaning(env, es);
    FindingWords(env, f);
    if FindingKey(env, f) in Index(env, es) {
      var i :| 0 <= i < |es| && ExceptionKey(env, es[i]) == FindingKey(env, f);
      RecordWords(env, es[i]);
      assert es[i] in es && OnFile(env, es, f, es[i]);
    }
    forall r | OnFile(env, es, f, r)
      ensures FindingKey(env, f) in Index(env, es) && Index(env, es)[FindingKey(env, f)] == EntryOf(env, r)
    {
      RecordWords(env, r);
      var i :| 0 <= i < |es| && es[i] == r;
    }
  }

  lemma EntryWords(env: Env, r: Record, f: Finding)
    requires RecordOk(env, r)
    ensures EntryOf(env, r).expiresOn < env.today <==> Expired(env, r)
    ensures EntryOf(env, r).severity == env.lower(Strip(r["severity"]))
  {
    assert "severity" in FIELDS && "expires_on" in FIELDS;
  }

  /** Looked up from the start: the first high finding of its kind. */
  lemma LookedUpWords(env: Env, fs: seq<Finding>, f: Finding)
    ensures LookedUp(env, {}, fs, f) <==> exists i :: FirstHigh(env, fs, i) && fs[i] == f
  {
    forall i ensures IsNew(env, {}, fs, i) <==> FirstHigh(env, fs, i) {
      FirstWords(env, fs, i);
    }
  }

  /**
   With sound exceptions the report lists a finding as missing exactly when it is a first high one that no exception
   concerns, as expired exactly when the exception that concerns it has expired, and as mismatched exactly when that
   exception names another severity; a high finding without advisory is an error of its own.
   */
  lemma ReportMeaning(env: Env, es: seq<Record>, fs: seq<Finding>, f: Finding)
    requires SoundExceptions(env, es) && AllOk(env, es)
    ensures var report := Outcome(env, es, fs);
            var first := exists i :: FirstHigh(env, fs, i) && fs[i] == f;
            && (f in report.missing <==> first && forall r :: !OnFile(env, es, f, r))
            && (f in report.expired <==> first && exists r :: OnFile(env, es, f, r) && Expired(env, r))
            && (NoAdvisoryId(f) in report.errors <==> f in fs && High(env, f) && !HasAdvisory(env, f))
            && (forall got :: SeverityMismatch(f, got) in report.errors <==>
                  first && exists r :: OnFile(env, es, f, r) && Mismatched(env, r, f)
                                       && got == env.lower(Strip(r["severity"])))
  {
    var index, scan := Index(env, es), Scan(env, Index(env, es), {}, fs);
    IndexMeaning(env, es);
    assert Outcome(env, es, fs) == scan;
    ScanLists(env, index, {}, fs, f);
    LookedUpWords(env, fs, f);
    IndexedRecord(env, es, f);
    FindingWords(env, f);
    forall r | OnFile(env, es, f, r)
      ensures EntryOf(env, r).expiresOn < env.today <==> Expired(env, r)
      ensures EntryOf(env, r).severity == env.lower(Strip(r["severity"]))
    {
      EntryWords(env, r, f);
    }
  }

  /******* What the report says about the exceptions *******/

  ghost predicate Filled(r: Record) {
    forall k :: k in FIELDS ==> k in r && r[k] != ""
  }

  /** One record is found faulty for the first of three reasons that applies. */
  lemma FaultWords(env: Env, r: Record)
    ensures Fault(env, r) == Some(MissingFields(r)) <==> !Filled(r)
    ensures Filled(r) ==> (Fault(env, r) == Some(InvalidDate(r)) <==> env.parseDate(r["expires_on"]).None?)
    ensures Filled(r) && env.parseDate(r["expires_on"]).Some? ==>
              (Fault(env, r) == Some(EmptyKey(r)) <==>
                 Strip(r["package"]) == "" || env.lower(Strip(r["advisory"])) == "")
  {
    FieldNames();
    assert "package" in FIELDS && "advisory" in FIELDS && "expires_on" in FIELDS;
    if Filled(r) {
      forall k | k in REQUIRED_FIELDS ensures Get(r, k) != "" {
      }
    } else {
      var k :| k in FIELDS && (k !in r || r[k] == "");
      assert Get(r, k) == "";
    }
  }

  /** Every faulty record is reported, and only those. */
  lemma {:induction false} FaultsAreReported(env: Env, es: seq<Record>, e: GateError)
    requires e.MissingFields? || e.InvalidDate? || e.EmptyKey?
    ensures e in RecordErrors(env, es) <==> exists r :: r in es && Fault(env, r) == Some(e)
  {
    if es != [] {
      FaultsAreReported(env, Init(es), e);
      assert es == Init(es) + [Last(es)];
      if r :| r in Init(es) && Fault(env, r) == Some(e) {
        assert r in es;
      }
      assert Last(es) in es;
    }
  }

  ghost predicate SoundWith(env: Env, r: Record, k: Key) {
    Fault(env, r).None? && ExceptionKey(env, r) == k
  }

  ghost predicate TwoOf<T>(p: T -> bool, s: seq<T>) {
    exists i, j :: 0 <= i < j < |s| && p(s[i]) && p(s[j])
  }

  ghost predicate OneOf<T>(p: T -> bool, s: seq<T>) {
    exists i :: 0 <= i < |s| && p(s[i])
  }

  lemma TwoOfSnoc<T>(p: T -> bool, s: seq<T>)
    requires s != []
    ensures TwoOf(p, s) <==> TwoOf(p, Init(s)) || (p(Last(s)) && OneOf(p, Init(s)))
    ensures OneOf(p, s) <==> p(Last(s)) || OneOf(p, Init(s))
  {
    var init, n := Init(s), |s| - 1;
    assert forall i :: 0 <= i < n ==> init[i] == s[i];
    assert s[n] == Last(s);
  }

  lemma {:induction false} IndexKeys(env: Env, es: seq<Record>, k: Key)
    ensures k in Index(env, es) <==> OneOf((r: Record) => SoundWith(env, r, k), es)
  {
    if es != [] {
      IndexKeys(env, Init(es), k);
      TwoOfSnoc((r: Record) => SoundWith(env, r, k), es);
    }
  }

  /** A repeated package and advisory is reported exactly when two sound records carry it. */
  lemma {:induction false} RepeatsAreReported(env: Env, es: seq<Record>, k: Key)
    ensures DuplicateException(k) in RecordErrors(env, es) <==> TwoOf((r: Record) => SoundWith(env, r, k), es)
  {
    if es != [] {
      RepeatsAreReported(env, Init(es), k);
      TwoOfSnoc((r: Record) => SoundWith(env, r, k), es);
      IndexKeys(env, Init(es), k);
    }
  }
}
